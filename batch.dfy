/** The batch file reader: one URL per line, blank lines and `#` comment lines
    skipped, file order kept. */
module Batch {
  import opened Results
  import opened Text
  import opened Env

  /** A trimmed line is kept when it is non-empty and does not start with `#`. */
  predicate IsEntry(line: string) {
    line != [] && !StartsWith(line, "#")
  }

  /** The file text cut at every newline, each piece trimmed. */
  function TrimmedLines(content: string): (r: seq<string>)
    ensures |r| == |Split(content, '\n')|
    ensures forall i :: 0 <= i < |r| ==> r[i] == Trim(Split(content, '\n')[i])
  {
    var pieces := Split(content, '\n');
    seq(|pieces|, i requires 0 <= i < |pieces| => Trim(pieces[i]))
  }

  /** The entry lines among the trimmed lines, in order, each as often as it
      occurs. */
  function Entries(lines: seq<string>): (r: seq<string>)
    ensures forall i :: 0 <= i < |r| ==> IsEntry(r[i])
    ensures IsSubsequence(r, lines)
    ensures forall i :: 0 <= i < |lines| && IsEntry(lines[i]) ==> lines[i] in r
    ensures forall x: string :: IsEntry(x) ==> multiset(r)[x] == multiset(lines)[x]
  {
    if lines == [] then []
    else
      var rest := Entries(lines[1..]);
      assert forall i :: 1 <= i < |lines| ==> lines[i] == lines[1..][i - 1];
      assert lines == [lines[0]] + lines[1..];
      if IsEntry(lines[0]) then
        assert ([lines[0]] + rest)[1..] == rest;
        [lines[0]] + rest
      else rest
  }

  /** The URLs a batch file with the given text yields. */
  function Urls(content: string): seq<string> {
    Entries(TrimmedLines(content))
  }

  /** readUrlsFromFile: a missing file is the not-found error; a file that
      cannot be read gives the file system's error; otherwise the file's URLs. */
  function ReadUrlsFromFile(path: string, found: bool, content: Result<string, string>): (r: Result<seq<string>, Error>)
    ensures !found ==> r == Failure(Error(NotFound, "Batch file not found: " + path))
    ensures found && content.Failure? ==> r == Failure(ExternalError(content.error))
    ensures found && content.Success? ==> r == Success(Urls(content.value))
  {
    if !found then Failure(Error(NotFound, "Batch file not found: " + path))
    else
      match content
      case Failure(e) => Failure(ExternalError(e))
      case Success(text) => Success(Urls(text))
  }

  /** Every URL is a non-empty, non-comment line with no whitespace at either end. */
  lemma UrlsAreTrimmedEntries(content: string, k: nat)
    requires k < |Urls(content)|
    ensures IsEntry(Urls(content)[k])
    ensures Trim(Urls(content)[k]) == Urls(content)[k]
  {
    var lines := TrimmedLines(content);
    SubsequenceElements(Urls(content), lines, k);
    var i :| 0 <= i < |lines| && lines[i] == Urls(content)[k];
    TrimIdempotent(Split(content, '\n')[i]);
  }

  /** A line of the file yields a URL exactly when its trimmed form is non-empty
      and does not start with `#`. */
  lemma LineKeptIff(content: string, i: nat)
    requires i < |Split(content, '\n')|
    ensures Trim(Split(content, '\n')[i]) in Urls(content) <==> IsEntry(Trim(Split(content, '\n')[i]))
  {
    var lines := TrimmedLines(content);
    assert lines[i] == Trim(Split(content, '\n')[i]);
  }

  /** URLs come out in file order, and there are never more of them than lines. */
  lemma UrlsInFileOrder(content: string)
    ensures IsSubsequence(Urls(content), TrimmedLines(content))
    ensures |Urls(content)| <= |Split(content, '\n')|
  {
    SubsequenceLength(Urls(content), TrimmedLines(content));
  }
}
