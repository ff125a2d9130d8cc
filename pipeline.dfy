/** The job pipeline of the command: assemble the input URLs, stop with the help
    text when there is nothing to do, expand playlists, and run the requested
    operations item by item, numbering the items and aborting on the first
    failure. */
module Pipeline {
  import opened Results
  import opened Text
  import opened Env
  import opened Downloader
  import Batch
  import Sanitizer

  /** The command-line options of one run. */
  datatype Options = Options(
    audio: bool,
    video: bool,
    outputDir: string,
    name: Option<string>,
    format: Option<string>,
    quality: Option<string>,
    batch: Option<string>)

  /** The positional URLs and the options. */
  datatype Cli = Cli(args: seq<string>, opts: Options)

  datatype Op = Audio | Video

  /** One concrete URL to download, and whether a playlist produced it. */
  datatype Item = Item(url: string, fromPlaylist: bool)

  /** One invocation of a download operation: the display number of its item,
      the item URL, the operation and the options it is given. */
  datatype Event = Event(index: nat, url: string, op: Op, opts: DownloadOptions)

  /** How a run ends: the help text, or the invocations made and whether the run
      succeeded or stopped with an error (exit code 0 or 1). */
  datatype Exit = Help | Completed(trace: seq<Event>) | Aborted(trace: seq<Event>, error: Error)

  // ---------------------------------------------------------------------------
  // Input assembly

  /** A batch file is used when a non-empty path is given. */
  predicate BatchGiven(opts: Options) {
    opts.batch.Some? && opts.batch.value != []
  }

  /** One leading and one trailing double quote removed, when present. */
  function StripQuotes(s: string): string {
    var a := if |s| > 0 && s[0] == '"' then s[1..] else s;
    if |a| > 0 && a[|a| - 1] == '"' then a[..|a| - 1] else a
  }

  lemma StripQuotesOfQuoted(s: string)
    ensures StripQuotes("\"" + s + "\"") == s
  {
    assert ("\"" + s + "\"")[1..] == s + "\"";
    assert (s + "\"")[..|s|] == s;
  }

  lemma StripQuotesOfUnquoted(s: string)
    requires s == [] || (s[0] != '"' && s[|s| - 1] != '"')
    ensures StripQuotes(s) == s
  {
  }

  /** A leading quote alone is removed, and nothing else. */
  lemma StripQuotesOfLeading(s: string)
    requires s == [] || s[|s| - 1] != '"'
    ensures StripQuotes("\"" + s) == s
  {
    assert ("\"" + s)[1..] == s;
  }

  /** A trailing quote alone is removed, and nothing else. */
  lemma StripQuotesOfTrailing(s: string)
    requires s == [] || s[0] != '"'
    ensures StripQuotes(s + "\"") == s
  {
    if s != [] {
      assert (s + "\"")[0] == s[0];
    }
    assert (s + "\"")[..|s|] == s;
  }

  /** A positional URL as the tool uses it: trimmed, then unquoted. */
  function CleanArg(arg: string): string {
    StripQuotes(Trim(arg))
  }

  /** The input URLs: the batch file's URLs when a batch file is given (the
      positional URLs are then ignored), otherwise the cleaned positional URLs. */
  function InputUrls(cli: Cli, w: World): (r: Result<seq<string>, Error>)
    ensures BatchGiven(cli.opts) ==>
              var path := cli.opts.batch.value;
              r == Batch.ReadUrlsFromFile(path, w.fileExists(path), w.readFile(path))
    ensures !BatchGiven(cli.opts) ==>
              r.Success? && |r.value| == |cli.args| && forall i :: 0 <= i < |cli.args| ==> r.value[i] == CleanArg(cli.args[i])
  {
    if BatchGiven(cli.opts) then
      var path := cli.opts.batch.value;
      Batch.ReadUrlsFromFile(path, w.fileExists(path), w.readFile(path))
    else
      Success(seq(|cli.args|, i requires 0 <= i < |cli.args| => CleanArg(cli.args[i])))
  }

  /** With a batch file the positional URLs make no difference. */
  lemma BatchIgnoresArgs(cli: Cli, args: seq<string>, w: World)
    requires BatchGiven(cli.opts)
    ensures InputUrls(cli, w) == InputUrls(Cli(args, cli.opts), w)
  {
  }

  // ---------------------------------------------------------------------------
  // Expansion of inputs into items

  /** An input counts as a playlist when `list=` occurs in it. */
  predicate IsPlaylist(raw: string) {
    Contains(raw, "list=")
  }

  /** An input is a playlist exactly when `list=` occurs somewhere in it. */
  lemma IsPlaylistIff(raw: string)
    ensures IsPlaylist(raw) <==> exists i :: 0 <= i <= |raw| && StartsWith(raw[i..], "list=")
  {
    ContainsIff(raw, "list=");
  }

  function Items(urls: seq<string>, fromPlaylist: bool): (r: seq<Item>)
    ensures |r| == |urls|
    ensures forall i :: 0 <= i < |urls| ==> r[i] == Item(urls[i], fromPlaylist)
  {
    seq(|urls|, i requires 0 <= i < |urls| => Item(urls[i], fromPlaylist))
  }

  /** Splitting the items of a URL list at position j. */
  lemma ItemsAt(urls: seq<string>, j: nat, fromPlaylist: bool)
    requires j < |urls|
    ensures Items(urls, fromPlaylist) ==
            Items(urls[..j], fromPlaylist) + [Item(urls[j], fromPlaylist)] + Items(urls[j + 1..], fromPlaylist)
    ensures Items(urls[..j + 1], fromPlaylist) == Items(urls[..j], fromPlaylist) + [Item(urls[j], fromPlaylist)]
  {
    var a := Items(urls[..j], fromPlaylist);
    var b := Items(urls[j + 1..], fromPlaylist);
    var all := a + [Item(urls[j], fromPlaylist)] + b;
    forall i | 0 <= i < |urls| ensures all[i] == Item(urls[i], fromPlaylist) {
      if i < j {
        assert all[i] == a[i];
      } else if i > j {
        assert all[i] == b[i - j - 1];
      }
    }
  }

  /** Regrouping a concatenation of five lists. */
  lemma Regroup<T>(a: seq<T>, b: seq<T>, c: seq<T>, d: seq<T>, e: seq<T>)
    ensures a + (b + c + d) + e == (a + b) + c + (d + e)
  {
  }

  /** The items of one input: the playlist's items, or the input itself. */
  function ExpandOne(raw: string, w: World): Result<seq<Item>, string> {
    if IsPlaylist(raw) then
      match w.playlist(raw)
      case Failure(e) => Failure(e)
      case Success(urls) => Success(Items(urls, true))
    else Success([Item(raw, false)])
  }

  /** The items of all inputs in input order, up to the first playlist that
      cannot be resolved, and that playlist's error. */
  datatype Expansion = Expansion(items: seq<Item>, failure: Option<string>)

  function Expand(inputs: seq<string>, w: World): Expansion {
    if inputs == [] then Expansion([], None)
    else
      match ExpandOne(inputs[0], w)
      case Failure(e) => Expansion([], Some(e))
      case Success(items) =>
        var rest := Expand(inputs[1..], w);
        Expansion(items + rest.items, rest.failure)
  }

  lemma {:induction false} ExpandAppend(a: seq<string>, b: seq<string>, w: World)
    ensures Expand(a + b, w) ==
            if Expand(a, w).failure.Some? then Expand(a, w)
            else Expansion(Expand(a, w).items + Expand(b, w).items, Expand(b, w).failure)
  {
    if a == [] {
      assert a + b == b;
    } else {
      assert (a + b)[0] == a[0];
      assert (a + b)[1..] == a[1..] + b;
      ExpandAppend(a[1..], b, w);
      match ExpandOne(a[0], w)
      case Failure(e) =>
      case Success(items) =>
        assert items + Expand(a[1..], w).items + Expand(b, w).items == items + (Expand(a[1..], w).items + Expand(b, w).items);
    }
  }

  /** Without playlists every input is one item, with its own URL, in order. */
  lemma {:induction false} ExpandWithoutPlaylists(inputs: seq<string>, w: World)
    requires forall i :: 0 <= i < |inputs| ==> !IsPlaylist(inputs[i])
    ensures Expand(inputs, w) == Expansion(Items(inputs, false), None)
  {
    if inputs != [] {
      ExpandWithoutPlaylists(inputs[1..], w);
      assert Items(inputs, false) == [Item(inputs[0], false)] + Items(inputs[1..], false);
    }
  }

  // ---------------------------------------------------------------------------
  // The planned invocations

  /** The operations run for each item: audio, then video, each when requested. */
  function Ops(opts: Options): seq<Op> {
    (if opts.audio then [Audio] else []) + (if opts.video then [Video] else [])
  }

  /** The options an item is downloaded with: the custom name only when there is
      a single input and the item is not from a playlist. */
  function ItemOptions(opts: Options, inputCount: nat, item: Item): DownloadOptions {
    DownloadOptions(
      opts.outputDir,
      if inputCount > 1 || item.fromPlaylist then None else opts.name,
      opts.format,
      opts.quality)
  }

  /** The invocations for one item with display number `index`. */
  function ItemEvents(opts: Options, inputCount: nat, item: Item, index: nat): seq<Event> {
    var o := ItemOptions(opts, inputCount, item);
    (if opts.audio then [Event(index, item.url, Audio, o)] else []) +
    (if opts.video then [Event(index, item.url, Video, o)] else [])
  }

  /** The invocations for a list of items numbered from `index` on. */
  function Planned(opts: Options, inputCount: nat, items: seq<Item>, index: nat): seq<Event> {
    if items == [] then []
    else ItemEvents(opts, inputCount, items[0], index) + Planned(opts, inputCount, items[1..], index + 1)
  }

  lemma {:induction false} PlannedAppend(opts: Options, n: nat, a: seq<Item>, b: seq<Item>, index: nat)
    ensures Planned(opts, n, a + b, index) == Planned(opts, n, a, index) + Planned(opts, n, b, index + |a|)
  {
    if a == [] {
      assert a + b == b;
    } else {
      assert (a + b)[0] == a[0];
      assert (a + b)[1..] == a[1..] + b;
      PlannedAppend(opts, n, a[1..], b, index + 1);
    }
  }

  lemma ItemEventsAt(opts: Options, n: nat, item: Item, index: nat, t: nat)
    requires t < |Ops(opts)|
    ensures |ItemEvents(opts, n, item, index)| == |Ops(opts)|
    ensures ItemEvents(opts, n, item, index)[t] == Event(index, item.url, Ops(opts)[t], ItemOptions(opts, n, item))
  {
  }

  /** The k-th item (from 0) gets display number index + k, its operations are
      consecutive and in the order of Ops, and each gets the item's options. */
  lemma {:induction false} PlannedAt(opts: Options, n: nat, items: seq<Item>, index: nat, k: nat, t: nat)
    requires k < |items| && t < |Ops(opts)|
    ensures |Planned(opts, n, items, index)| == |items| * |Ops(opts)|
    ensures k * |Ops(opts)| + t < |items| * |Ops(opts)|
    ensures Planned(opts, n, items, index)[k * |Ops(opts)| + t] ==
            Event(index + k, items[k].url, Ops(opts)[t], ItemOptions(opts, n, items[k]))
  {
    var m := |Ops(opts)|;
    var head := ItemEvents(opts, n, items[0], index);
    ItemEventsAt(opts, n, items[0], index, t);
    if |items| == 1 {
      assert Planned(opts, n, items[1..], index + 1) == [];
    } else if k == 0 {
      PlannedAt(opts, n, items[1..], index + 1, 0, t);
    } else {
      PlannedAt(opts, n, items[1..], index + 1, k - 1, t);
      assert k * m + t == m + ((k - 1) * m + t);
      assert |items| * m == m + (|items| - 1) * m;
    }
  }

  // ---------------------------------------------------------------------------
  // Running the operations

  /** What one invocation reports: the download's error, or success. */
  function Perform(ev: Event, w: World): Outcome<Error> {
    match ev.op
    case Audio =>
      (match DownloadAudio(ev.url, ev.opts, w)
       case Failure(e) => Fail(e)
       case Success(_) => Pass)
    case Video =>
      (match DownloadVideo(ev.url, ev.opts, w)
       case Failure(e) => Fail(e)
       case Success(_) => Pass)
  }

  /** Perform as a function value, for the definitions below that only need to
      know what each invocation reports. */
  function Performer(w: World): Event -> Outcome<Error> {
    ev => Perform(ev, w)
  }

  /** The error of the first failing invocation, if any. */
  function FirstFailure(events: seq<Event>, perform: Event -> Outcome<Error>): Outcome<Error> {
    if events == [] then Pass
    else if perform(events[0]).Fail? then perform(events[0])
    else FirstFailure(events[1..], perform)
  }

  /** The invocations up to and including the first failing one. */
  function UpToFailure(events: seq<Event>, perform: Event -> Outcome<Error>): seq<Event> {
    if events == [] then []
    else if perform(events[0]).Fail? then [events[0]]
    else [events[0]] + UpToFailure(events[1..], perform)
  }

  /** UpToFailure is the shortest prefix that ends in a failure, or everything
      when nothing fails: each invocation in it but the last succeeded, and the
      last failed with the first error exactly when something failed. */
  lemma {:induction false} UpToFailureIsCut(events: seq<Event>, perform: Event -> Outcome<Error>)
    ensures var t := UpToFailure(events, perform);
            && |t| <= |events|
            && t == events[..|t|]
            && (forall p :: 0 <= p < |t| - 1 ==> perform(t[p]).Pass?)
            && (FirstFailure(events, perform).Pass? ==> t == events && forall p :: 0 <= p < |t| ==> perform(t[p]).Pass?)
            && (FirstFailure(events, perform).Fail? ==> t != [] && FirstFailure(events, perform) == perform(t[|t| - 1]))
  {
    if events != [] && perform(events[0]).Pass? {
      UpToFailureIsCut(events[1..], perform);
      var rest := UpToFailure(events[1..], perform);
      assert UpToFailure(events, perform) == [events[0]] + rest;
      assert events[..1 + |rest|] == [events[0]] + events[1..][..|rest|];
      if FirstFailure(events, perform).Pass? {
        assert [events[0]] + events[1..] == events;
      }
    }
  }

  lemma {:induction false} FirstFailureAppend(a: seq<Event>, b: seq<Event>, perform: Event -> Outcome<Error>)
    ensures FirstFailure(a + b, perform) == if FirstFailure(a, perform).Fail? then FirstFailure(a, perform) else FirstFailure(b, perform)
  {
    if a == [] {
      assert a + b == b;
    } else {
      assert (a + b)[0] == a[0];
      assert (a + b)[1..] == a[1..] + b;
      FirstFailureAppend(a[1..], b, perform);
    }
  }

  lemma {:induction false} UpToFailureAppend(a: seq<Event>, b: seq<Event>, perform: Event -> Outcome<Error>)
    ensures UpToFailure(a + b, perform) == if FirstFailure(a, perform).Fail? then UpToFailure(a, perform) else a + UpToFailure(b, perform)
  {
    if a == [] {
      assert a + b == b;
    } else {
      assert (a + b)[0] == a[0];
      assert (a + b)[1..] == a[1..] + b;
      UpToFailureAppend(a[1..], b, perform);
      if FirstFailure(a, perform).Pass? {
        assert [a[0]] + (a[1..] + UpToFailure(b, perform)) == a + UpToFailure(b, perform);
      }
    }
  }

  /** The run of a whole input list. */
  datatype Run = Run(trace: seq<Event>, outcome: Outcome<Error>)

  /** The reference behaviour of the item loop: the planned invocations of the
      expanded items, numbered from 1, cut at the first failing invocation; the
      outcome is that invocation's error, else the error of an unresolvable
      playlist, else success. */
  function Reference(inputs: seq<string>, opts: Options, w: World, perform: Event -> Outcome<Error>): Run {
    var e := Expand(inputs, w);
    var planned := Planned(opts, |inputs|, e.items, 1);
    Run(UpToFailure(planned, perform),
        if FirstFailure(planned, perform).Fail? then FirstFailure(planned, perform)
        else if e.failure.Some? then Fail(ExternalError(e.failure.value))
        else Pass)
  }

  /** Cutting a run inside the item whose invocations contain the first failure. */
  lemma CutInside(x: seq<Event>, y: seq<Event>, z: seq<Event>, perform: Event -> Outcome<Error>)
    requires FirstFailure(x, perform).Pass? && FirstFailure(y, perform).Fail?
    ensures UpToFailure(x + y + z, perform) == x + UpToFailure(y, perform)
    ensures FirstFailure(x + y + z, perform) == FirstFailure(y, perform)
  {
    assert x + y + z == x + (y + z);
    UpToFailureAppend(x, y + z, perform);
    UpToFailureAppend(y, z, perform);
    FirstFailureAppend(x, y + z, perform);
    FirstFailureAppend(y, z, perform);
  }

  /** Splitting the expansion of all inputs at input `i`, once the inputs before
      it expanded without error and input `i` expanded to `its`. */
  lemma ExpandAt(inputs: seq<string>, i: nat, its: seq<Item>, w: World)
    requires i < |inputs|
    requires Expand(inputs[..i], w).failure.None?
    requires ExpandOne(inputs[i], w) == Success(its)
    ensures Expand(inputs, w).items == Expand(inputs[..i], w).items + its + Expand(inputs[i + 1..], w).items
    ensures Expand(inputs, w).failure == Expand(inputs[i + 1..], w).failure
    ensures Expand(inputs[..i + 1], w) == Expansion(Expand(inputs[..i], w).items + its, None)
  {
    assert inputs == inputs[..i] + inputs[i..];
    ExpandAppend(inputs[..i], inputs[i..], w);
    assert inputs[i..][0] == inputs[i];
    assert inputs[i..][1..] == inputs[i + 1..];
    assert inputs[..i + 1] == inputs[..i] + [inputs[i]];
    ExpandAppend(inputs[..i], [inputs[i]], w);
    assert [inputs[i]][1..] == [];
    assert its + [] == its;
  }

  /** The expansion of all inputs stops at input `i` when its playlist fails. */
  lemma ExpandFailsAt(inputs: seq<string>, i: nat, e: string, w: World)
    requires i < |inputs|
    requires Expand(inputs[..i], w).failure.None?
    requires ExpandOne(inputs[i], w) == Failure(e)
    ensures Expand(inputs, w) == Expansion(Expand(inputs[..i], w).items, Some(e))
  {
    assert inputs == inputs[..i] + inputs[i..];
    ExpandAppend(inputs[..i], inputs[i..], w);
    assert inputs[i..][0] == inputs[i];
    assert Expand(inputs[..i], w).items + [] == Expand(inputs[..i], w).items;
  }

  /** How the run goes on past one item once everything before it succeeded:
      it stops inside the item when one of the item's invocations fails, and
      otherwise the item's invocations are appended to the planned ones. */
  lemma ItemStep(opts: Options, n: nat, prior: seq<Item>, item: Item, after: seq<Item>, perform: Event -> Outcome<Error>)
    requires FirstFailure(Planned(opts, n, prior, 1), perform).Pass?
    ensures var events := ItemEvents(opts, n, item, 1 + |prior|);
            var all := Planned(opts, n, prior + [item] + after, 1);
            && Planned(opts, n, prior + [item], 1) == Planned(opts, n, prior, 1) + events
            && (FirstFailure(events, perform).Fail? ==>
                  && UpToFailure(all, perform) == Planned(opts, n, prior, 1) + UpToFailure(events, perform)
                  && FirstFailure(all, perform) == FirstFailure(events, perform))
            && (FirstFailure(events, perform).Pass? ==>
                  && UpToFailure(events, perform) == events
                  && FirstFailure(Planned(opts, n, prior + [item], 1), perform).Pass?)
  {
    var events := ItemEvents(opts, n, item, 1 + |prior|);
    PlannedAppend(opts, n, prior + [item], after, 1);
    PlannedAppend(opts, n, prior, [item], 1);
    assert Planned(opts, n, [item], 1 + |prior|) == events + [];
    FirstFailureAppend(Planned(opts, n, prior, 1), events, perform);
    UpToFailureIsCut(events, perform);
    if FirstFailure(events, perform).Fail? {
      CutInside(Planned(opts, n, prior, 1), events, Planned(opts, n, after, 2 + |prior|), perform);
    }
  }

  /** What the invocations of one item report, written out: audio first when
      requested, then video when requested, and video only when audio did not
      fail. */
  lemma ItemRun(opts: Options, n: nat, item: Item, index: nat, perform: Event -> Outcome<Error>)
    ensures var a := Event(index, item.url, Audio, ItemOptions(opts, n, item));
            var v := Event(index, item.url, Video, ItemOptions(opts, n, item));
            var events := ItemEvents(opts, n, item, index);
            var stop := opts.audio && perform(a).Fail?;
            && UpToFailure(events, perform) ==
                 (if opts.audio then [a] else []) + (if !stop && opts.video then [v] else [])
            && FirstFailure(events, perform) ==
                 (if stop then perform(a) else if opts.video && perform(v).Fail? then perform(v) else Pass)
  {
    var a := Event(index, item.url, Audio, ItemOptions(opts, n, item));
    var v := Event(index, item.url, Video, ItemOptions(opts, n, item));
    var events := ItemEvents(opts, n, item, index);
    var audio: seq<Event> := if opts.audio then [a] else [];
    var video: seq<Event> := if opts.video then [v] else [];
    assert events == audio + video;
    FirstFailureAppend(audio, video, perform);
    UpToFailureAppend(audio, video, perform);
    if opts.audio {
      assert audio[1..] == [];
    }
    if opts.video {
      assert video[1..] == [];
    }
  }

  /** One item (src/index.ts:76-84): audio first when requested, then video when
      requested, stopping at the first failure. `perform` invokes the download
      an event names and reports how it ended; the command passes Performer. */
  method RunItem(opts: Options, n: nat, item: Item, index: nat, perform: Event -> Outcome<Error>) returns (events: seq<Event>, outcome: Outcome<Error>)
    ensures events == UpToFailure(ItemEvents(opts, n, item, index), perform)
    ensures outcome == FirstFailure(ItemEvents(opts, n, item, index), perform)
  {
    var downloadOpts := ItemOptions(opts, n, item);
    ItemRun(opts, n, item, index, perform);
    events := [];
    outcome := Pass;
    if opts.audio {
      var ev := Event(index, item.url, Audio, downloadOpts);
      events := events + [ev];
      var r := perform(ev);
      if r.Fail? {
        outcome := r;
        return;
      }
    }
    if opts.video {
      var ev := Event(index, item.url, Video, downloadOpts);
      events := events + [ev];
      var r := perform(ev);
      outcome := r;
    }
  }

  /** The items of one input (src/index.ts:73-87), run after the items `done` of
      the inputs before it, which all succeeded; `after` stands for the items
      that follow in the whole run. */
  method RunUrls(opts: Options, n: nat, ghost done: seq<Item>, ghost after: seq<Item>, urls: seq<string>, fromPlaylist: bool,
                 trace0: seq<Event>, index0: nat, perform: Event -> Outcome<Error>)
    returns (trace: seq<Event>, outcome: Outcome<Error>, index: nat)
    requires trace0 == Planned(opts, n, done, 1) && FirstFailure(trace0, perform).Pass?
    requires index0 == 1 + |done|
    ensures var all := Planned(opts, n, done + Items(urls, fromPlaylist) + after, 1);
            outcome.Fail? ==> trace == UpToFailure(all, perform) && outcome == FirstFailure(all, perform)
    ensures outcome.Pass? ==>
              && trace == Planned(opts, n, done + Items(urls, fromPlaylist), 1)
              && FirstFailure(trace, perform).Pass?
              && index == 1 + |done + Items(urls, fromPlaylist)|
  {
    ghost var its := Items(urls, fromPlaylist);
    trace := trace0;
    outcome := Pass;
    index := index0;
    var j := 0;
    assert Items(urls[..0], fromPlaylist) == [];
    assert done + Items(urls[..0], fromPlaylist) == done;
    while j < |urls|
      invariant 0 <= j <= |urls|
      invariant trace == Planned(opts, n, done + Items(urls[..j], fromPlaylist), 1)
      invariant FirstFailure(trace, perform).Pass?
      invariant index == 1 + |done| + j
    {
      var item := Item(urls[j], fromPlaylist);
      ghost var prior := done + Items(urls[..j], fromPlaylist);
      ghost var rest := Items(urls[j + 1..], fromPlaylist) + after;
      ItemsAt(urls, j, fromPlaylist);
      Regroup(done, Items(urls[..j], fromPlaylist), [item], Items(urls[j + 1..], fromPlaylist), after);
      ItemStep(opts, n, prior, item, rest, perform);
      var events, result := RunItem(opts, n, item, index, perform);
      trace := trace + events;
      if result.Fail? {
        assert done + its + after == prior + [item] + rest;
        assert index == 1 + |prior|;
        outcome := result;
        return;
      }
      assert done + Items(urls[..j + 1], fromPlaylist) == prior + [item];
      index := index + 1;
      j := j + 1;
    }
    assert urls[..j] == urls;
  }

  /** The per-item loop (src/index.ts:63-88): for each input, its items; for each
      item, its operations, with a counter from 1; the first error ends the run.
      It is proved for every `perform`, so for the real downloads in particular. */
  method RunItems(inputs: seq<string>, opts: Options, w: World, perform: Event -> Outcome<Error>) returns (trace: seq<Event>, outcome: Outcome<Error>)
    ensures Run(trace, outcome) == Reference(inputs, opts, w, perform)
  {
    var n := |inputs|;
    trace := [];
    outcome := Pass;
    var totalIndex: nat := 1;
    var i := 0;
    while i < |inputs|
      invariant 0 <= i <= |inputs|
      invariant Expand(inputs[..i], w).failure.None?
      invariant trace == Planned(opts, n, Expand(inputs[..i], w).items, 1)
      invariant FirstFailure(trace, perform).Pass? && outcome == Pass
      invariant totalIndex == 1 + |Expand(inputs[..i], w).items|
    {
      var raw := inputs[i];
      ghost var done := Expand(inputs[..i], w).items;
      var isPlaylist := IsPlaylist(raw);
      var urls: seq<string>;
      if isPlaylist {
        var expanded := w.playlist(raw);
        if expanded.Failure? {
          outcome := Fail(ExternalError(expanded.error));
          ExpandFailsAt(inputs, i, expanded.error, w);
          UpToFailureIsCut(trace, perform);
          return;
        }
        urls := expanded.value;
      } else {
        urls := [raw];
        assert Items(urls, false) == [Item(raw, false)];
      }
      assert ExpandOne(raw, w) == Success(Items(urls, isPlaylist));
      ExpandAt(inputs, i, Items(urls, isPlaylist), w);
      ghost var later := Expand(inputs[i + 1..], w).items;
      trace, outcome, totalIndex := RunUrls(opts, n, done, later, urls, isPlaylist, trace, totalIndex, perform);
      if outcome.Fail? {
        return;
      }
      i := i + 1;
    }
    assert inputs[..i] == inputs;
    UpToFailureIsCut(trace, perform);
  }

  /** The whole command (src/index.ts:37-94): assemble the inputs, show the help when
      there is no URL or no operation, check the output directory, run the items,
      and end with success or with the first error. */
  method Execute(cli: Cli, w: World) returns (exit: Exit)
    ensures InputUrls(cli, w).Failure? ==> exit == Aborted([], InputUrls(cli, w).error)
    ensures InputUrls(cli, w).Success? && (InputUrls(cli, w).value == [] || (!cli.opts.audio && !cli.opts.video)) ==>
              exit == Help
    ensures InputUrls(cli, w).Success? && InputUrls(cli, w).value != [] && (cli.opts.audio || cli.opts.video) ==>
              if !w.isDirectory(cli.opts.outputDir) then exit == Aborted([], DirError(cli.opts.outputDir))
              else
                var run := Reference(InputUrls(cli, w).value, cli.opts, w, Performer(w));
                exit == if run.outcome.Pass? then Completed(run.trace) else Aborted(run.trace, run.outcome.error)
  {
    var inputUrls: seq<string> := [];
    if BatchGiven(cli.opts) {
      var path := cli.opts.batch.value;
      var read := Batch.ReadUrlsFromFile(path, w.fileExists(path), w.readFile(path));
      if read.Failure? {
        return Aborted([], read.error);
      }
      inputUrls := inputUrls + read.value;
      assert inputUrls == read.value;
    } else if |cli.args| > 0 {
      inputUrls := inputUrls + seq(|cli.args|, i requires 0 <= i < |cli.args| => CleanArg(cli.args[i]));
    }
    assert InputUrls(cli, w).value == inputUrls;
    if inputUrls == [] || (!cli.opts.audio && !cli.opts.video) {
      return Help;
    }
    if !w.isDirectory(cli.opts.outputDir) {
      return Aborted([], DirError(cli.opts.outputDir));
    }
    var trace, outcome := RunItems(inputUrls, cli.opts, w, Performer(w));
    if outcome.Pass? {
      exit := Completed(trace);
    } else {
      exit := Aborted(trace, outcome.error);
    }
  }

  // ---------------------------------------------------------------------------
  // Properties of the reference behaviour

  /** With a single non-playlist input, every invocation gets the custom name,
      and a successful audio download is written under the sanitised custom name. */
  lemma SingleInputUsesCustomName(u: string, opts: Options, w: World, p: nat)
    requires !IsPlaylist(u) && opts.name.Some? && opts.name.value != []
    requires p < |Reference([u], opts, w, Performer(w)).trace|
    ensures var ev := Reference([u], opts, w, Performer(w)).trace[p];
            && ev.opts.filename == opts.name
            && ev.url == u
            && (ev.op == Audio && DownloadAudio(u, ev.opts, w).Success? ==>
                  DownloadAudio(u, ev.opts, w).value.output.file ==
                  Sanitizer.Sanitize(opts.name.value) + "." + DownloadAudio(u, ev.opts, w).value.format)
  {
    ExpandWithoutPlaylists([u], w);
    var planned := Planned(opts, 1, [Item(u, false)], 1);
    UpToFailureIsCut(planned, Performer(w));
    assert Planned(opts, 1, [Item(u, false)][1..], 2) == [];
    assert planned == ItemEvents(opts, 1, Item(u, false), 1) + [];
  }

  /** Every planned invocation writes to the output directory and passes the
      requested format and quality unchanged; with several inputs, or for a
      playlist's items, it gets no custom name. */
  lemma {:induction false} PlannedOptions(opts: Options, n: nat, items: seq<Item>, index: nat, p: nat)
    requires p < |Planned(opts, n, items, index)|
    ensures var o := Planned(opts, n, items, index)[p].opts;
            && o.outputDir == opts.outputDir && o.format == opts.format && o.quality == opts.quality
            && (n > 1 ==> o.filename.None?)
            && ((forall k :: 0 <= k < |items| ==> items[k].fromPlaylist) ==> o.filename.None?)
    ensures var ev := Planned(opts, n, items, index)[p];
            exists k :: 0 <= k < |items| && ev.url == items[k].url
                        && (items[k].fromPlaylist ==> ev.opts.filename.None?)
                        && (n <= 1 && !items[k].fromPlaylist ==> ev.opts.filename == opts.name)
  {
    var head := ItemEvents(opts, n, items[0], index);
    if p >= |head| {
      PlannedOptions(opts, n, items[1..], index + 1, p - |head|);
      var ev := Planned(opts, n, items, index)[p];
      var k :| 0 <= k < |items[1..]| && ev.url == items[1..][k].url
               && (items[1..][k].fromPlaylist ==> ev.opts.filename.None?)
               && (n <= 1 && !items[1..][k].fromPlaylist ==> ev.opts.filename == opts.name);
      assert items[1..][k] == items[k + 1];
    } else {
      assert Planned(opts, n, items, index)[p] == head[p];
    }
  }

  /** With a single playlist input no invocation gets the custom name: every
      output is named after its video's title. */
  lemma SinglePlaylistInputUsesTitles(u: string, opts: Options, w: World, p: nat)
    requires IsPlaylist(u) && p < |Reference([u], opts, w, Performer(w)).trace|
    ensures var ev := Reference([u], opts, w, Performer(w)).trace[p];
            && ev.opts.filename.None?
            && (ev.op == Audio && DownloadAudio(ev.url, ev.opts, w).Success? ==>
                  var job := DownloadAudio(ev.url, ev.opts, w).value;
                  job.output.file == Sanitizer.Sanitize(job.info.title) + "." + job.format)
  {
    var items := Expand([u], w).items;
    assert [u][1..] == [];
    assert forall k :: 0 <= k < |items| ==> items[k].fromPlaylist by {
      match w.playlist(u)
      case Failure(_) =>
      case Success(urls) =>
        assert ExpandOne([u][0], w) == Success(Items(urls, true));
        assert Expand([u][1..], w) == Expansion([], None);
    }
    var planned := Planned(opts, 1, items, 1);
    UpToFailureIsCut(planned, Performer(w));
    PlannedOptions(opts, 1, items, 1, p);
  }

  /** With several inputs every output is named after its video's title. */
  lemma SeveralInputsUseTitles(inputs: seq<string>, opts: Options, w: World, p: nat)
    requires |inputs| > 1 && p < |Reference(inputs, opts, w, Performer(w)).trace|
    ensures var ev := Reference(inputs, opts, w, Performer(w)).trace[p];
            && ev.opts.filename.None?
            && (ev.op == Audio && DownloadAudio(ev.url, ev.opts, w).Success? ==>
                  var job := DownloadAudio(ev.url, ev.opts, w).value;
                  job.output.file == Sanitizer.Sanitize(job.info.title) + "." + job.format)
  {
    var planned := Planned(opts, |inputs|, Expand(inputs, w).items, 1);
    UpToFailureIsCut(planned, Performer(w));
    PlannedOptions(opts, |inputs|, Expand(inputs, w).items, 1, p);
  }
}
