/** The few JavaScript string operations the indexer relies on: the `\s` character class and
    `String.prototype.trim`, `indexOf("\n", from)`, and the host utilities that turn an offset
    into a line number and a path into its extension. */
module JsText {

  import opened Wrappers

  /** A character of the `\s` class, which is also the set `trim()` strips (ECMAScript
      WhiteSpace and LineTerminator). */
  predicate IsJsSpace(c: char) {
    c == '\t' || c == '\n' || c == '\U{b}' || c == '\U{c}' || c == '\r' || c == ' ' ||
    c == '\U{a0}' || c == '\U{1680}' || ('\U{2000}' <= c <= '\U{200a}') ||
    c == '\U{2028}' || c == '\U{2029}' || c == '\U{202f}' || c == '\U{205f}' ||
    c == '\U{3000}' || c == '\U{feff}'
  }

  /** `s.trim()`: the longest infix of `s` that neither starts nor ends with white space. */
  function Trim(s: string): (r: string)
    ensures |r| <= |s|
    ensures r == [] || (!IsJsSpace(r[0]) && !IsJsSpace(r[|r| - 1]))
  {
    TrimEnd(TrimStart(s))
  }

  /** What `trim()` removes is white space and nothing else: a run at the front and a run at
      the back, with the result the infix between them. */
  lemma TrimIsInfix(s: string)
    ensures var a := |s| - |TrimStart(s)|; var r := Trim(s);
      a + |r| <= |s| && r == s[a..a + |r|] &&
      (forall k :: 0 <= k < a ==> IsJsSpace(s[k])) &&
      (forall k :: a + |r| <= k < |s| ==> IsJsSpace(s[k]))
  {
    var t := TrimStart(s);
    var a := |s| - |t|;
    var r := TrimEnd(t);
    assert t == s[a..];
    assert r == t[..|r|];
    forall k | a + |r| <= k < |s| ensures IsJsSpace(s[k]) {
      assert s[k] == t[k - a];
    }
  }

  function TrimStart(s: string): (r: string)
    ensures |r| <= |s| && r == s[|s| - |r|..]
    ensures r == [] || !IsJsSpace(r[0])
    ensures forall k :: 0 <= k < |s| - |r| ==> IsJsSpace(s[k])
  {
    if s != [] && IsJsSpace(s[0]) then TrimStart(s[1..]) else s
  }

  function TrimEnd(s: string): (r: string)
    ensures |r| <= |s| && r == s[..|r|]
    ensures r == [] || !IsJsSpace(r[|r| - 1])
    ensures forall k :: |r| <= k < |s| ==> IsJsSpace(s[k])
  {
    if s != [] && IsJsSpace(s[|s| - 1]) then TrimEnd(s[..|s| - 1]) else s
  }

  /** `text.indexOf("\n", from)`, with -1 replaced by `text.length` (the source does that
      replacement at every use). */
  function LineEnd(text: string, from: nat): (e: nat)
    requires from <= |text|
    decreases |text| - from
    ensures from <= e <= |text|
    ensures e < |text| ==> text[e] == '\n'
    ensures forall k :: from <= k < e ==> text[k] != '\n'
  {
    if from == |text| || text[from] == '\n' then from else LineEnd(text, from + 1)
  }

  /** Number of newline characters in `s`. */
  function CountNewlines(s: string): (n: nat)
    ensures n <= |s|
  {
    if s == [] then 0 else CountNewlines(s[..|s| - 1]) + (if s[|s| - 1] == '\n' then 1 else 0)
  }

  /** The 0-based line holding `offset` (`StringUtils.offsetToLineNum`), taken to be the number
      of newlines before it; offsets past the end count every newline. */
  function LineOf(text: string, offset: nat): nat {
    CountNewlines(text[..if offset <= |text| then offset else |text|])
  }

  /** A later offset never lies on an earlier line. */
  lemma {:induction false} LineOfMonotone(text: string, a: nat, b: nat)
    requires a <= b
    ensures LineOf(text, a) <= LineOf(text, b)
    decreases b
  {
    if a < b && a < |text| {
      LineOfMonotone(text, a, b - 1);
      if b <= |text| {
        assert text[..b][..b - 1] == text[..b - 1];
      }
    }
  }

  /** `s.lastIndexOf(c)`, with -1 as None. */
  function LastIndexOf(s: string, c: char): (r: Option<nat>)
    ensures r.Some? ==> r.value < |s| && s[r.value] == c && c !in s[r.value + 1..]
    ensures r.None? ==> c !in s
  {
    if s == [] then None
    else if s[|s| - 1] == c then Some(|s| - 1)
    else
      var r := LastIndexOf(s[..|s| - 1], c);
      assert s == s[..|s| - 1] + [s[|s| - 1]];
      r
  }

  /** `FileUtils.getFileExtension`: the text after the last "." of the last "/"-separated
      segment, or "" when that segment has no "." (or ends with it). A non-empty result is
      the tail of the path after a "." with no "." or "/" in it, so after the last "." of the
      last segment; an empty one means the path ends with "." or every "." has a "/" after
      it. Together these fix the result for every path. */
  function FileExtension(path: string): (ext: string)
    ensures '/' !in ext && '.' !in ext
    ensures ext == [] || (|ext| < |path| && path[|path| - |ext| - 1] == '.' && ext == path[|path| - |ext|..])
    ensures ext == [] ==>
      (|path| > 0 && path[|path| - 1] == '.') ||
      forall k :: 0 <= k < |path| && path[k] == '.' ==> '/' in path[k + 1..]
  {
    var base := match LastIndexOf(path, '/') case None => path case Some(i) => path[i + 1..];
    match LastIndexOf(base, '.')
    case None => []
    case Some(i) => base[i + 1..]
  }

  /** `toLowerCase()` on the ASCII letters. */
  function ToLower(s: string): (r: string)
    ensures |r| == |s|
    ensures forall k :: 0 <= k < |s| ==> r[k] == (if 'A' <= s[k] <= 'Z' then s[k] - 'A' + 'a' else s[k])
  {
    seq(|s|, k requires 0 <= k < |s| => if 'A' <= s[k] <= 'Z' then s[k] - 'A' + 'a' else s[k])
  }

  /** A variable that holds a string, `null` or `undefined`, as `+` turns it into a string. */
  datatype JsValue = Undefined | Null | Str(s: string)

  function ToJsString(v: JsValue): string {
    match v
    case Undefined => "undefined"
    case Null => "null"
    case Str(s) => s
  }
}
