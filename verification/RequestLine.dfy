/** The request line: `HttpData::ParseURI`.

    The code mixes `size_t` positions with tests for `< 0`, so a search that fails is not noticed and
    the calculation goes on with `npos`, modulo 2^64. `ParseUri` says what comes out, without any
    arithmetic; the method in `HttpData` is proved against it. */
module RequestLine {
  import opened Sequences

  const SIZE_MOD: nat := 0x1_0000_0000_0000_0000
  const NPOS: nat := 0xFFFF_FFFF_FFFF_FFFF
  // `int` positions are only faithful below this length.
  const MAX_INT: nat := 0x7FFF_FFFF

  datatype Method = Get | Post | Head
  datatype Version = Http10 | Http11
  datatype UriState = UriAgain | UriError | UriSuccess

  predicate Occurs(s: string, needle: string, at: nat) {
    at + |needle| <= |s| && s[at..at + |needle|] == needle
  }

  /** The first occurrence at or behind `from`. */
  function Search(s: string, needle: string, from: nat): (at: Option<nat>)
    ensures at.Some? ==> from <= at.value && Occurs(s, needle, at.value)
    ensures at.Some? ==> forall j | from <= j < at.value :: !Occurs(s, needle, j)
    ensures at.None? ==> forall j | from <= j :: !Occurs(s, needle, j)
    decreases |s| - from
  {
    if from + |needle| > |s| then None
    else if Occurs(s, needle, from) then Some(from)
    else if from == |s| then None
    else Search(s, needle, from + 1)
  }

  /** std::string::find */
  function Find(s: string, needle: string, from: nat): nat {
    var at := Search(s, needle, from);
    if at.Some? then at.value else NPOS
  }

  ghost predicate Contains(s: string, needle: string) {
    exists at :: Occurs(s, needle, at)
  }

  /** The first method name found anywhere in the line, tried in this order, and where. */
  function FindMethod(line: string): Option<(Method, nat)> {
    var get, post, head := Search(line, "GET", 0), Search(line, "POST", 0), Search(line, "HEAD", 0);
    if get.Some? then Some((Get, get.value))
    else if post.Some? then Some((Post, post.value))
    else if head.Some? then Some((Head, head.value))
    else None
  }

  function UpTo(s: string, ch: char): string {
    var at := Search(s, [ch], 0);
    if at.Some? then s[..at.value] else s
  }

  function ParseVersion(text: string): Option<Version> {
    if text == "1.0" then Some(Http10) else if text == "1.1" then Some(Http11) else None
  }

  /** The three characters taken for the version number. When any search before has failed, they are
      the first three of the line. */
  function VersionText(line: string, slash: Option<nat>): Option<string>
    requires |line| >= 3
  {
    match slash
    case None => Some(line[..3])
    case Some(v) => if v < |line| && |line| - v > 3 then Some(line[v + 1..v + 4]) else None
  }

  datatype Uri = Uri(ok: bool, buffer: string, verb: Method, file: string, version: Version)

  /** What stands between a slash and the space behind it, without a query. */
  function FileName(line: string, start: Option<nat>, end: Option<nat>): string
    requires start.Some? ==> start.value < |line| && (end.Some? ==> start.value < end.value <= |line|)
  {
    if start.None? || (end.Some? && end.value == start.value + 1) then "index.html"
    else UpTo(line[start.value + 1..if end.Some? then end.value else |line|], '?')
  }

  /** The first slash, and the first space behind it. */
  function TargetIn(line: string, from: nat): (se: (Option<nat>, Option<nat>))
    ensures se.0.Some? ==> se.0.value < |line| && (se.1.Some? ==> se.0.value < se.1.value <= |line|)
    ensures se.0.None? ==> se.1.None?
  {
    var start := Search(line, "/", from);
    if start.None? then (None, None)
    else
      assert line[start.value..start.value + 1][0] == '/';
      (start, Search(line, " ", start.value))
  }

  /** The rest of ParseURI, behind the method at `from`; `u` has the fields as they were. */
  function ParseTarget(line: string, from: nat, u: Uri): Uri
    requires |line| >= 3
  {
    var (start, end) := TargetIn(line, from);
    var slash := if end.Some? then Search(line, "/", end.value) else None;
    var file := FileName(line, start, end);
    var text := VersionText(line, slash);
    var version := if text.Some? then ParseVersion(text.value) else None;
    if version.None? then u.(ok := false, file := file)
    else u.(ok := true, file := file, version := version.value)
  }

  function ParseUri(str: string, verb: Method, file: string, version: Version): Uri {
    var cr := Search(str, "\r", 0);
    // Without a CR the whole buffer is taken for the line, and stays in the buffer.
    var line := if cr.Some? then str[..cr.value] else str;
    var rest := if cr.Some? then str[cr.value + 1..] else str;
    var m := FindMethod(line);
    if m.None? then Uri(false, rest, verb, file, version)
    else ParseTarget(line, m.value.1, Uri(true, rest, m.value.0, file, version))
  }

  // ---------------------------------------------------------------- searching

  lemma SearchIs(s: string, needle: string, from: nat, at: nat)
    requires from <= at && Occurs(s, needle, at)
    requires forall j | from <= j < at :: !Occurs(s, needle, j)
    ensures Search(s, needle, from) == Some(at)
  {
  }

  /** A single character, looked for. */
  lemma SearchChar(s: string, ch: char, from: nat, at: nat)
    requires from <= at < |s| && s[at] == ch
    requires forall j | from <= j < at :: s[j] != ch
    ensures Search(s, [ch], from) == Some(at)
  {
    assert s[at..at + 1] == [ch];
    forall j | from <= j < at ensures !Occurs(s, [ch], j) {
      assert s[j..j + 1][0] == s[j];
    }
    SearchIs(s, [ch], from, at);
  }

  lemma SearchSplit(a: string, ch: char, b: string, from: nat)
    requires from <= |a| && ch !in a[from..]
    ensures Search(a + [ch] + b, [ch], from) == Some(|a|)
  {
    var s := a + [ch] + b;
    forall j | from <= j < |a| ensures s[j] != ch { assert s[j] == a[from..][j - from]; }
    SearchChar(s, ch, from, |a|);
  }

  /** A word without spaces cannot straddle one. */
  lemma WordInPart(a: string, b: string, word: string)
    requires word != "" && ' ' !in word
    ensures Contains(a + [' '] + b, word) <==> Contains(a, word) || Contains(b, word)
  {
    var s, n := a + [' '] + b, |word|;
    if Contains(s, word) {
      var at: nat :| Occurs(s, word, at);
      assert forall i | at <= i < at + n :: s[i] == word[i - at];
      assert s[|a|] == ' ';
      if at + n <= |a| {
        assert s[at..at + n] == a[at..at + n];
        assert Occurs(a, word, at);
      } else {
        assert s[at..at + n] == b[at - |a| - 1..at - |a| - 1 + n];
        assert Occurs(b, word, at - |a| - 1);
      }
    }
    if Contains(a, word) {
      var at: nat :| Occurs(a, word, at);
      assert s[at..at + n] == a[at..at + n];
      assert Occurs(s, word, at);
    }
    if Contains(b, word) {
      var at: nat :| Occurs(b, word, at);
      assert s[at + |a| + 1..at + |a| + 1 + n] == b[at..at + n];
      assert Occurs(s, word, at + |a| + 1);
    }
  }
}
