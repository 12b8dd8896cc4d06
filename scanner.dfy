/** The marker scanner (`_findAllTemplatesInText`): the first `{namespace X}` of a text gives
    the prefix of every name, and every `{template name` marker is filed under the prefix
    followed by its trimmed name, as a record holding the offset of its `{`.

    The two regular expressions are written out as matchers at one position (`TemplateAt`,
    `NamespaceAt`) plus the leftmost search that `exec` performs (`Search`). */
module Scanner {

  import opened Wrappers
  import opened JsText

  /** A successful `exec`: where the match starts, where it ends, and capture group 1. */
  datatype Match = Match(index: nat, end: nat, capture: string)

  /** Length of the longest run of characters satisfying `p` that starts at `from`. */
  function RunLength(text: string, from: nat, p: char -> bool): (n: nat)
    requires from <= |text|
    decreases |text| - from
    ensures from + n <= |text|
  {
    if from < |text| && p(text[from]) then 1 + RunLength(text, from + 1, p) else 0
  }

  /** The run is made of characters satisfying `p` and cannot be extended. */
  lemma {:induction false} RunLengthMaximal(text: string, from: nat, p: char -> bool)
    requires from <= |text|
    ensures var n := RunLength(text, from, p);
      (forall k :: from <= k < from + n ==> p(text[k])) && (from + n < |text| ==> !p(text[from + n]))
    decreases |text| - from
  {
    if from < |text| && p(text[from]) {
      RunLengthMaximal(text, from + 1, p);
    }
  }

  /** `[^\}\/]`, the first character of both captures. */
  predicate IsHeadChar(c: char) {
    c != '}' && c != '/'
  }

  /** `[^\s^\}\/]`, every further character of a template name. */
  predicate IsNameChar(c: char) {
    !IsJsSpace(c) && c != '^' && c != '}' && c != '/'
  }

  predicate IsNonSpace(c: char) {
    !IsJsSpace(c)
  }

  const TemplateOpen: string := "{template "
  const NamespaceOpen: string := "{namespace "

  /** `/{template ([^\}\/][^\s^\}\/]+)/` tried at position `i`: the marker, one head character,
      then the greedy run of name characters, which must not be empty. */
  function TemplateAt(text: string, i: nat): (r: Option<Match>)
    ensures r.Some? ==> r.value.index == i && i + |TemplateOpen| + 2 <= r.value.end <= |text|
  {
    if i + 11 <= |text| && text[i..i + 10] == TemplateOpen && IsHeadChar(text[i + 10]) then
      var n := RunLength(text, i + 11, IsNameChar);
      if n == 0 then None else Some(Match(i, i + 11 + n, text[i + 10..i + 11 + n]))
    else None
  }

  /** `/{namespace ([^\}\/][^\s]+)(?:\})/` tried at position `i`: after the head character the
      greedy run of non-space characters backs off to its last `}` that leaves at least one
      character in the run; the capture ends just before that `}`. */
  function NamespaceAt(text: string, i: nat): (r: Option<Match>)
    ensures r.Some? ==> r.value.index == i && i + |NamespaceOpen| + 3 <= r.value.end <= |text|
  {
    if i + 12 <= |text| && text[i..i + 11] == NamespaceOpen && IsHeadChar(text[i + 11]) then
      var p := i + 12;
      var m := RunLength(text, p, IsNonSpace);
      if m < 2 then None
      else match LastIndexOf(text[p + 1..p + m], '}')
        case None => None
        case Some(k) => Some(Match(i, p + k + 2, text[i + 11..p + k + 1]))
    else None
  }

  /** The leftmost position at or after `from` where `at` matches. */
  function Search(at: (string, nat) -> Option<Match>, text: string, from: nat): (r: Option<nat>)
    decreases |text| - from
    ensures r.Some? ==> from <= r.value < |text| && at(text, r.value).Some?
  {
    if from >= |text| then None
    else if at(text, from).Some? then Some(from)
    else Search(at, text, from + 1)
  }

  lemma {:induction false} SearchIsLeftmost(at: (string, nat) -> Option<Match>, text: string, from: nat)
    ensures var r := Search(at, text, from);
      forall j :: from <= j < (if r.Some? then r.value else |text|) ==> at(text, j).None?
    decreases |text| - from
  {
    if from < |text| && at(text, from).None? {
      SearchIsLeftmost(at, text, from + 1);
    }
  }

  /** A search from `from` that could match at `j` stops at or before `j`. */
  lemma {:induction false} SearchReaches(at: (string, nat) -> Option<Match>, text: string, from: nat, j: nat)
    requires from <= j < |text| && at(text, j).Some?
    ensures Search(at, text, from).Some? && Search(at, text, from).value <= j
    decreases j - from
  {
    if at(text, from).None? {
      SearchReaches(at, text, from + 1, j);
    }
  }

  /** A search from `from` that fails everywhere before `i` and succeeds at `i` stops at `i`. */
  lemma {:induction false} SearchFinds(at: (string, nat) -> Option<Match>, text: string, from: nat, i: nat)
    requires from <= i < |text| && at(text, i).Some?
    requires forall j :: from <= j < i ==> at(text, j).None?
    ensures Search(at, text, from) == Some(i)
    decreases i - from
  {
    if from < i {
      SearchFinds(at, text, from + 1, i);
    }
  }

  /** `exec` of the global template expression with `lastIndex == from`. */
  function NextTemplate(text: string, from: nat): (r: Option<Match>)
    ensures r.Some? ==> from <= r.value.index < r.value.end <= |text|
  {
    match Search(TemplateAt, text, from)
    case None => None
    case Some(j) => TemplateAt(text, j)
  }

  /** Every match `exec` reports when it is called until it fails, starting at `from`. */
  function TemplateMatches(text: string, from: nat): seq<Match>
    decreases |text| - from
  {
    match NextTemplate(text, from)
    case None => []
    case Some(m) => [m] + TemplateMatches(text, m.end)
  }

  /** The namespace the source keeps: the trimmed capture of the first namespace match, or
      `null` when the text has none. It is never `undefined`, and it is `null` exactly when
      the namespace expression matches nowhere in the text. */
  function FirstNamespace(text: string): (ns: JsValue)
    ensures ns != Undefined
    ensures ns == Null <==> forall j :: 0 <= j < |text| ==> NamespaceAt(text, j).None?
  {
    SearchIsLeftmost(NamespaceAt, text, 0);
    match Search(NamespaceAt, text, 0)
    case None => Null
    case Some(j) => Str(Trim(NamespaceAt(text, j).value.capture))
  }

  /** The key under which a marker is filed: the namespace as `+` renders it (so "null"
      when there is none), then the trimmed template capture. */
  function QualifiedName(ns: JsValue, m: Match): string {
    ToJsString(ns) + Trim(m.capture)
  }

  /** A key starts with the namespace, and the name after it is no longer than the capture
      and neither starts nor ends with white space. */
  lemma QualifiedNameParts(ns: JsValue, m: Match)
    ensures var pre := ToJsString(ns); var k := QualifiedName(ns, m);
      |pre| <= |k| && k[..|pre|] == pre && |k| - |pre| <= |m.capture| &&
      (|k| == |pre| || (!IsJsSpace(k[|pre|]) && !IsJsSpace(k[|k| - 1])))
  {
    var pre := ToJsString(ns);
    var k := QualifiedName(ns, m);
    assert k[..|pre|] == pre;
  }

  /** The index built by appending the matches one by one: name to marker offsets. */
  function Index(ns: JsValue, ms: seq<Match>): map<string, seq<nat>> {
    if ms == [] then map[]
    else
      var m := ms[|ms| - 1];
      var idx := Index(ns, ms[..|ms| - 1]);
      var k := QualifiedName(ns, m);
      idx[k := (if k in idx then idx[k] else []) + [m.index]]
  }

  /** The index of a whole text, scanned from offset 0. */
  function TemplateIndex(text: string): map<string, seq<nat>> {
    Index(FirstNamespace(text), TemplateMatches(text, 0))
  }

  /** Offsets of the matches of `ms` filed under `k`, in order. */
  function StartsNamed(ns: JsValue, ms: seq<Match>, k: string): seq<nat> {
    if ms == [] then []
    else StartsNamed(ns, ms[..|ms| - 1], k) + (if QualifiedName(ns, ms[|ms| - 1]) == k then [ms[|ms| - 1].index] else [])
  }

  /** Nothing is overwritten: a name is a key exactly when some match is filed under it, and
      its list holds the offsets of all those matches, in the order they were found. */
  lemma {:induction false} IndexPerName(ns: JsValue, ms: seq<Match>, k: string)
    ensures k in Index(ns, ms) <==> StartsNamed(ns, ms, k) != []
    ensures k in Index(ns, ms) ==> Index(ns, ms)[k] == StartsNamed(ns, ms, k)
  {
    if ms != [] {
      var prior := ms[..|ms| - 1];
      IndexPerName(ns, prior, k);
      if QualifiedName(ns, ms[|ms| - 1]) == k {
        assert Index(ns, ms)[k] == (if k in Index(ns, prior) then Index(ns, prior)[k] else []) + [ms[|ms| - 1].index];
      } else {
        assert Index(ns, ms) == Index(ns, prior)[QualifiedName(ns, ms[|ms| - 1]) := Index(ns, ms)[QualifiedName(ns, ms[|ms| - 1])]];
      }
    }
  }

  /** Every match of `ms` is the match of the template expression at its own offset, at or
      after `from`. */
  predicate MatchedFrom(text: string, from: nat, ms: seq<Match>) {
    forall i :: 0 <= i < |ms| ==> from <= ms[i].index && TemplateAt(text, ms[i].index) == Some(ms[i])
  }

  /** The matches of `ms` come in textual order and do not overlap. */
  predicate InOrder(ms: seq<Match>) {
    forall i, j :: 0 <= i < j < |ms| ==> ms[i].end <= ms[j].index
  }

  /** The matches come in textual order, do not overlap, and each one is the match of the
      template expression at its own offset. */
  lemma {:induction false} TemplateMatchesOrdered(text: string, from: nat)
    ensures MatchedFrom(text, from, TemplateMatches(text, from))
    ensures InOrder(TemplateMatches(text, from))
    decreases |text| - from
  {
    match NextTemplate(text, from)
    case None =>
    case Some(m) =>
      var rest := TemplateMatches(text, m.end);
      TemplateMatchesOrdered(text, m.end);
      PrependMatch(text, from, m, rest);
  }

  /** Putting a match in front of the later ones keeps both properties. */
  lemma PrependMatch(text: string, from: nat, m: Match, rest: seq<Match>)
    requires from <= m.index && TemplateAt(text, m.index) == Some(m)
    requires MatchedFrom(text, m.end, rest) && InOrder(rest)
    ensures MatchedFrom(text, from, [m] + rest) && InOrder([m] + rest)
  {
    var ms := [m] + rest;
    forall i, j | 0 <= i < j < |ms| ensures ms[i].end <= ms[j].index {
      assert ms[j] == rest[j - 1];
      if i > 0 {
        assert ms[i] == rest[i - 1];
      }
    }
  }

  /** No match of `ms` has `j` strictly inside it. */
  predicate Uncovered(ms: seq<Match>, j: nat) {
    forall i :: 0 <= i < |ms| ==> !(ms[i].index < j < ms[i].end)
  }

  /** No marker is missed: every offset where the template expression matches and that does
      not lie inside an earlier match is the offset of one of the matches. */
  lemma {:induction false} TemplateMatchesComplete(text: string, from: nat, j: nat)
    requires from <= j && TemplateAt(text, j).Some?
    requires Uncovered(TemplateMatches(text, from), j)
    ensures exists i :: 0 <= i < |TemplateMatches(text, from)| && TemplateMatches(text, from)[i].index == j
    decreases |text| - from
  {
    SearchReaches(TemplateAt, text, from, j);
    var m := NextTemplate(text, from).value;
    var rest := TemplateMatches(text, m.end);
    assert TemplateMatches(text, from) == [m] + rest;
    if m.index == j {
      assert ([m] + rest)[0].index == j;
    } else {
      UncoveredTail(m, rest, j);
      TemplateMatchesComplete(text, m.end, j);
      var i :| 0 <= i < |rest| && rest[i].index == j;
      assert ([m] + rest)[i + 1] == rest[i];
    }
  }

  /** A position at or after the first match and not inside it is at or after its end, and
      stays uncovered by the later matches. */
  lemma UncoveredTail(m: Match, rest: seq<Match>, j: nat)
    requires m.index < m.end && m.index <= j && m.index != j && Uncovered([m] + rest, j)
    ensures m.end <= j && Uncovered(rest, j)
  {
    assert ([m] + rest)[0] == m;
    forall i | 0 <= i < |rest| ensures !(rest[i].index < j < rest[i].end) {
      assert ([m] + rest)[i + 1] == rest[i];
    }
  }

  /** A run that is known character by character has the length of that run. */
  lemma {:induction false} RunLengthExact(text: string, from: nat, len: nat, p: char -> bool)
    requires from + len <= |text|
    requires forall k :: from <= k < from + len ==> p(text[k])
    requires from + len == |text| || !p(text[from + len])
    ensures RunLength(text, from, p) == len
    decreases len
  {
    if len > 0 {
      RunLengthExact(text, from + 1, len - 1, p);
    }
  }

  /** A declared template `{template NAME` followed by a character that ends the name is
      matched with exactly NAME as its capture. */
  lemma TemplateDeclared(pre: string, name: string, rest: string)
    requires |name| >= 2 && IsHeadChar(name[0])
    requires forall k :: 1 <= k < |name| ==> IsNameChar(name[k])
    requires rest == [] || !IsNameChar(rest[0])
    ensures var text := pre + TemplateOpen + name + rest;
      TemplateAt(text, |pre|) == Some(Match(|pre|, |pre| + 10 + |name|, name))
  {
    var text := pre + TemplateOpen + name + rest;
    var i := |pre|;
    assert text[i..i + 10] == TemplateOpen;
    assert text[i + 10] == name[0];
    assert forall k :: i + 11 <= k < i + 10 + |name| ==> text[k] == name[k - i - 10];
    assert i + 10 + |name| < |text| ==> text[i + 10 + |name|] == rest[0];
    RunLengthExact(text, i + 11, |name| - 1, IsNameChar);
    assert text[i + 10..i + 10 + |name|] == name;
  }

  /** The template expression matches at `i` exactly when `{template ` is followed by a head
      character and at least one name character; the match then captures the head character
      and the whole greedy run of name characters after it, and ends where that run ends. */
  lemma TemplateAtExactly(text: string, i: nat)
    ensures TemplateAt(text, i).Some? <==>
      i + 12 <= |text| && text[i..i + 10] == TemplateOpen && IsHeadChar(text[i + 10]) && IsNameChar(text[i + 11])
    ensures TemplateAt(text, i).Some? ==> var m := TemplateAt(text, i).value;
      m.capture == text[i + 10..m.end] &&
      (forall k :: i + 11 <= k < m.end ==> IsNameChar(text[k])) &&
      (m.end < |text| ==> !IsNameChar(text[m.end]))
  {
    if i + 11 <= |text| {
      RunLengthMaximal(text, i + 11, IsNameChar);
    }
  }

  /** A one-character name is never matched: `{template a}` does not count as a marker. */
  lemma SingleCharNameNeverMatches(text: string, i: nat, c: char)
    requires i + 12 <= |text| && text[i..i + 12] == TemplateOpen + [c, '}']
    ensures TemplateAt(text, i) == None
  {
    assert text[i + 11] == '}';
  }

  /** A declared namespace `{namespace NS}` followed by white space or the end of the text is
      matched with exactly NS as its capture, provided NS has no white space after its first
      character; a `}` inside NS does not end it, as the greedy run backs off only to its
      last `}`. */
  lemma NamespaceDeclared(pre: string, ns: string, rest: string)
    requires |ns| >= 2 && IsHeadChar(ns[0])
    requires forall k :: 1 <= k < |ns| ==> !IsJsSpace(ns[k])
    requires rest == [] || IsJsSpace(rest[0])
    ensures var text := pre + NamespaceOpen + ns + "}" + rest;
      NamespaceAt(text, |pre|) == Some(Match(|pre|, |pre| + 12 + |ns|, ns))
  {
    var text := pre + NamespaceOpen + ns + "}" + rest;
    var i := |pre|;
    var p := i + 12;
    NamespaceLayout(pre, ns, rest);
    assert text[i + 11] == ns[0];
    RunLengthExact(text, p, |ns|, IsNonSpace);
    var tail := text[p + 1..p + |ns|];
    assert tail[|tail| - 1] == '}';
    assert LastIndexOf(tail, '}') == Some(|ns| - 2);
  }

  /** The namespace expression matches only where `{namespace ` and a head character stand. */
  lemma NamespaceAtNeedsOpen(text: string, i: nat)
    ensures NamespaceAt(text, i).Some? ==>
      i + 12 <= |text| && text[i..i + 11] == NamespaceOpen && IsHeadChar(text[i + 11])
  {
  }

  /** Where `{namespace ` and a head character stand at `i`, with `p` the position after the
      head character and `m` the length of the run of non-space characters from there (the
      greedy run of `RunLengthMaximal`): the namespace expression matches exactly when that
      run holds a `}` after its first character. The match then ends just past the last such
      `}` of the run: the capture is the head character and the non-space characters before
      that `}`, and no `}` follows it within the run. A `}` followed by more non-space text
      therefore does not end the capture. */
  lemma NamespaceAtExactly(text: string, i: nat, p: nat, m: nat)
    requires i + 12 <= |text| && text[i..i + 11] == NamespaceOpen && IsHeadChar(text[i + 11])
    requires p == i + 12 && m == RunLength(text, p, IsNonSpace)
    ensures NamespaceAt(text, i).Some? <==> 1 <= m && '}' in text[p + 1..p + m]
    ensures NamespaceAt(text, i).Some? ==> var r := NamespaceAt(text, i).value; var q := r.end - 1;
      p < q < p + m && text[q] == '}' && r.capture == text[i + 11..q] && '}' !in text[q + 1..p + m]
  {
    if m < 2 {
      assert NamespaceAt(text, i) == None;
      if m == 1 {
        assert text[p + 1..p + m] == [];
      }
    } else {
      var tail := text[p + 1..p + m];
      match LastIndexOf(tail, '}')
      case None =>
        assert NamespaceAt(text, i) == None;
      case Some(k) =>
        assert tail[k] == '}';
        assert NamespaceAt(text, i) == Some(Match(i, p + k + 2, text[i + 11..p + k + 1]));
        assert text[p + 1 + k] == tail[k];
        assert text[p + k + 2..p + m] == tail[k + 1..];
    }
  }

  /** Where the parts of a declaration sit in its text. */
  lemma NamespaceLayout(pre: string, ns: string, rest: string)
    requires |ns| >= 2 && forall k :: 1 <= k < |ns| ==> !IsJsSpace(ns[k])
    requires rest == [] || IsJsSpace(rest[0])
    ensures var text := pre + NamespaceOpen + ns + "}" + rest; var i := |pre|;
      |text| == i + 12 + |ns| + |rest| &&
      text[i..i + 11] == NamespaceOpen && text[i + 11..i + 11 + |ns|] == ns && text[i + 11 + |ns|] == '}' &&
      (forall k :: i + 12 <= k < i + 12 + |ns| ==> IsNonSpace(text[k])) &&
      (i + 12 + |ns| == |text| || !IsNonSpace(text[i + 12 + |ns|]))
  {
    var text := pre + NamespaceOpen + ns + "}" + rest;
    var i := |pre|;
    assert text[i + 11..i + 11 + |ns|] == ns;
    forall k | i + 12 <= k < i + 12 + |ns| ensures IsNonSpace(text[k]) {
      if k < i + 11 + |ns| {
        assert text[k] == ns[k - i - 11];
      }
    }
    assert i + 12 + |ns| < |text| ==> text[i + 12 + |ns|] == rest[0];
  }

  /** The first namespace wins: when the text has no namespace match before a declaration,
      that declaration's name is the prefix, whatever follows it. */
  lemma FirstNamespaceWins(pre: string, ns: string, rest: string)
    requires |ns| >= 2 && IsHeadChar(ns[0])
    requires forall k :: 1 <= k < |ns| ==> !IsJsSpace(ns[k])
    requires rest == [] || IsJsSpace(rest[0])
    requires forall j :: 0 <= j < |pre| ==> NamespaceAt(pre + NamespaceOpen + ns + "}" + rest, j).None?
    ensures FirstNamespace(pre + NamespaceOpen + ns + "}" + rest) == Str(Trim(ns))
  {
    var text := pre + NamespaceOpen + ns + "}" + rest;
    var i := |pre|;
    assert NamespaceAt(text, i) == Some(Match(i, i + 12 + |ns|, ns)) by {
      NamespaceDeclared(pre, ns, rest);
    }
    SearchFinds(NamespaceAt, text, 0, i);
  }

  /** Without a namespace declaration every name starts with "null". */
  lemma NoNamespaceMeansNull(text: string, m: Match)
    requires forall j :: 0 <= j < |text| ==> NamespaceAt(text, j).None?
    ensures QualifiedName(FirstNamespace(text), m) == "null" + Trim(m.capture)
  {
    assert Search(NamespaceAt, text, 0) == None;
  }

  /** A marker found by the scan: `offsetStart` is fixed, the other fields are filled in
      later; 0 stands for JavaScript's `undefined`, which is the only falsy value the
      source tests for. */
  class TemplateRecord {
    const offsetStart: nat
    var offsetEnd: nat
    var lineStart: nat
    var lineEnd: nat
    /** The scan that created the record (proof bookkeeping only). */
    ghost const scan: Scan

    constructor(offsetStart: nat, ghost scan: Scan)
      ensures this.offsetStart == offsetStart && this.scan == scan
      ensures offsetEnd == 0 && lineStart == 0 && lineEnd == 0
    {
      this.offsetStart := offsetStart;
      this.scan := scan;
      offsetEnd := 0;
      lineStart := 0;
      lineEnd := 0;
    }
  }

  /** One run of `_findAllTemplatesInText`. A record made by a run that began after some
      state cannot have existed in that state, so tagging each record with its run shows the
      records of a run to be new objects. */
  class Scan {
    ghost constructor()
    {
    }
  }

  /** The object `_findAllTemplatesInText` returns: name to the records of its markers. */
  type TemplateTable = map<string, seq<TemplateRecord>>

  /** The `offsetStart` of each record, in order. */
  function Starts(rs: seq<TemplateRecord>): (r: seq<nat>)
    ensures |r| == |rs|
  {
    if rs == [] then [] else Starts(rs[..|rs| - 1]) + [rs[|rs| - 1].offsetStart]
  }

  /** The offset of each match, in order. */
  function Offsets(ms: seq<Match>): (r: seq<nat>)
    ensures |r| == |ms|
  {
    if ms == [] then [] else Offsets(ms[..|ms| - 1]) + [ms[|ms| - 1].index]
  }

  /** The offsets of a table, name by name. */
  function StartsTable(t: TemplateTable): map<string, seq<nat>> {
    map k | k in t :: Starts(t[k])
  }

  /** The module-level `/…/g` template expression: `exec` searches from `lastIndex`, moves it
      past a match and resets it to 0 when it finds none. */
  class TemplateRegExp {
    var lastIndex: nat

    constructor()
      ensures lastIndex == 0
    {
      lastIndex := 0;
    }

    method Exec(text: string) returns (m: Option<Match>)
      modifies this
      ensures m == NextTemplate(text, old(lastIndex))
      ensures lastIndex == if m.Some? then m.value.end else 0
      ensures TemplateMatches(text, old(lastIndex)) == if m.Some? then [m.value] + TemplateMatches(text, lastIndex) else []
    {
      m := NextTemplate(text, lastIndex);
      lastIndex := if m.Some? then m.value.end else 0;
    }
  }

  /** The records a table holds, under any name. */
  function Records(t: TemplateTable): set<TemplateRecord> {
    set k, i | k in t && 0 <= i < |t[k]| :: t[k][i]
  }

  /** No record of the table has its end offset yet. */
  predicate Unfilled(t: TemplateTable)
    reads Records(t)
  {
    forall k, i :: k in t && 0 <= i < |t[k]| ==> t[k][i].offsetEnd == 0
  }

  /** The table that filing `rs[i]` under the name of `ms[i]`, in order, builds. */
  function TableOf(ns: JsValue, ms: seq<Match>, rs: seq<TemplateRecord>): TemplateTable
    requires |ms| == |rs|
  {
    if ms == [] then map[]
    else Append(TableOf(ns, ms[..|ms| - 1], rs[..|rs| - 1]), QualifiedName(ns, ms[|ms| - 1]), rs[|rs| - 1])
  }

  /** Filing one record per match, each carrying its match's offset, yields the index. */
  lemma {:induction false} TableIndex(ns: JsValue, ms: seq<Match>, rs: seq<TemplateRecord>)
    requires |ms| == |rs| && Starts(rs) == Offsets(ms)
    ensures StartsTable(TableOf(ns, ms, rs)) == Index(ns, ms)
  {
    if ms != [] {
      var n := |ms| - 1;
      var t := TableOf(ns, ms[..n], rs[..n]);
      assert TableOf(ns, ms, rs) == Append(t, QualifiedName(ns, ms[n]), rs[n]);
      StartsOffsetsPrefix(ms, rs);
      assert StartsTable(t) == Index(ns, ms[..n]) by {
        TableIndex(ns, ms[..n], rs[..n]);
      }
      AppendKeepsIndex(t, ns, ms, rs[n]);
    }
  }

  lemma StartsOffsetsPrefix(ms: seq<Match>, rs: seq<TemplateRecord>)
    requires |ms| == |rs| > 0 && Starts(rs) == Offsets(ms)
    ensures Starts(rs[..|rs| - 1]) == Offsets(ms[..|ms| - 1]) && rs[|rs| - 1].offsetStart == ms[|ms| - 1].index
  {
    var n := |ms| - 1;
    assert Starts(rs)[..n] == Starts(rs[..n]) && Offsets(ms)[..n] == Offsets(ms[..n]);
    assert Starts(rs)[n] == rs[n].offsetStart && Offsets(ms)[n] == ms[n].index;
  }

  /** Every record of the table is one of `rs`. */
  predicate Filed(t: TemplateTable, rs: seq<TemplateRecord>) {
    forall k, i :: k in t && 0 <= i < |t[k]| ==> t[k][i] in rs
  }

  lemma FiledAppend(t: TemplateTable, rs: seq<TemplateRecord>, name: string, record: TemplateRecord)
    requires Filed(t, rs)
    ensures Filed(Append(t, name, record), rs + [record])
  {
    var t' := Append(t, name, record);
    forall k, i | k in t' && 0 <= i < |t'[k]| ensures t'[k][i] in rs + [record] {
      if k == name && i == |t'[k]| - 1 {
        assert t'[k][i] == record;
      } else {
        assert t'[k][i] == t[k][i] && t[k][i] in rs;
      }
    }
  }

  /** `results[name]` made an array when it is not one yet, then `push(record)`. */
  function Append(t: TemplateTable, name: string, record: TemplateRecord): TemplateTable {
    t[name := (if name in t then t[name] else []) + [record]]
  }

  /** Filing the record of one more match keeps the table equal to the index of the matches
      seen so far. */
  lemma StartsOfAppend(t: TemplateTable, k: string, record: TemplateRecord)
    ensures StartsTable(Append(t, k, record)) ==
            StartsTable(t)[k := (if k in t then Starts(t[k]) else []) + [record.offsetStart]]
  {
    var prior := if k in t then t[k] else [];
    var rs := prior + [record];
    assert rs[..|rs| - 1] == prior && rs[|rs| - 1] == record;
    var t' := Append(t, k, record);
    var lhs := StartsTable(t');
    var rhs := StartsTable(t)[k := Starts(prior) + [record.offsetStart]];
    assert lhs.Keys == rhs.Keys;
    forall key | key in lhs ensures lhs[key] == rhs[key] {
      if key == k {
        assert t'[key] == rs;
      } else {
        assert t'[key] == t[key];
      }
    }
  }

  lemma AppendKeepsIndex(t: TemplateTable, ns: JsValue, ms: seq<Match>, record: TemplateRecord)
    requires ms != [] && StartsTable(t) == Index(ns, ms[..|ms| - 1])
    requires record.offsetStart == ms[|ms| - 1].index
    ensures StartsTable(Append(t, QualifiedName(ns, ms[|ms| - 1]), record)) == Index(ns, ms)
  {
    StartsOfAppend(t, QualifiedName(ns, ms[|ms| - 1]), record);
  }

  /** One turn of the scan loop: make `results[name]` an array when it is not one yet, then
      push a fresh record for the match. */
  method FileMatch(results: TemplateTable, namespaceName: JsValue, m: Match, ghost scan: Scan)
    returns (results': TemplateTable, record: TemplateRecord)
    ensures fresh(record) && record.offsetStart == m.index && record.offsetEnd == 0 && record.scan == scan
    ensures results' == Append(results, QualifiedName(namespaceName, m), record)
  {
    var templateName := QualifiedName(namespaceName, m);
    results' := results;
    if templateName !in results' {
      results' := results'[templateName := []];
    }
    record := new TemplateRecord(m.index, scan);
    results' := results'[templateName := results'[templateName] + [record]];
  }

  /** Filing one more match keeps the table and the offsets in step with the matches. */
  lemma FileOne(ns: JsValue, done: seq<Match>, records: seq<TemplateRecord>, results: TemplateTable,
                m: Match, record: TemplateRecord)
    requires Filing(ns, done, records, results) && record.offsetStart == m.index
    ensures Filing(ns, done + [m], records + [record], Append(results, QualifiedName(ns, m), record))
  {
    StepTable(ns, done, records, m, record);
    FiledAppend(results, records, QualifiedName(ns, m), record);
  }

  lemma StepTable(ns: JsValue, done: seq<Match>, records: seq<TemplateRecord>, m: Match, record: TemplateRecord)
    requires |records| == |done| && Starts(records) == Offsets(done) && record.offsetStart == m.index
    ensures Starts(records + [record]) == Offsets(done + [m])
    ensures Append(TableOf(ns, done, records), QualifiedName(ns, m), record) == TableOf(ns, done + [m], records + [record])
  {
    assert (done + [m])[..|done|] == done && (records + [record])[..|records|] == records;
  }

  /** A record without an end offset can join records without one. */
  lemma ZeroedAppend(rs: seq<TemplateRecord>, r: TemplateRecord)
    requires Zeroed(rs) && r.offsetEnd == 0
    ensures Zeroed(rs + [r])
  {
    forall i | 0 <= i < |rs| + 1 ensures (rs + [r])[i].offsetEnd == 0 {
      if i < |rs| {
        assert (rs + [r])[i] == rs[i];
      }
    }
  }

  /** The table holds exactly the records of `records`, filed match by match, and their
      offsets are those of the matches. */
  predicate Filing(ns: JsValue, done: seq<Match>, records: seq<TemplateRecord>, results: TemplateTable) {
    |records| == |done| && Starts(records) == Offsets(done) &&
    results == TableOf(ns, done, records) && Filed(results, records)
  }

  /** No record of `rs` has its end offset yet. */
  predicate Zeroed(rs: seq<TemplateRecord>)
    reads rs
  {
    forall i :: 0 <= i < |rs| ==> rs[i].offsetEnd == 0
  }

  /** Every record of `rs` was made by `scan`. */
  ghost predicate MadeBy(rs: seq<TemplateRecord>, scan: Scan) {
    forall i :: 0 <= i < |rs| ==> rs[i].scan == scan
  }

  lemma MadeByAppend(rs: seq<TemplateRecord>, scan: Scan, r: TemplateRecord)
    requires MadeBy(rs, scan) && r.scan == scan
    ensures MadeBy(rs + [r], scan)
  {
    forall i | 0 <= i < |rs| + 1 ensures (rs + [r])[i].scan == scan {
      if i < |rs| {
        assert (rs + [r])[i] == rs[i];
      }
    }
  }

  /** One turn of the `exec` loop of `_findAllTemplatesInText`: run the expression once and,
      when it matches, file a fresh record for the match. `done` are the matches filed so far
      and `all` those of the whole scan. */
  method FileNext(text: string, re: TemplateRegExp, namespaceName: JsValue, results: TemplateTable,
                  ghost all: seq<Match>, ghost done: seq<Match>, ghost records: seq<TemplateRecord>,
                  ghost scan: Scan)
    returns (more: bool, results': TemplateTable, ghost done': seq<Match>, ghost records': seq<TemplateRecord>)
    requires done + TemplateMatches(text, re.lastIndex) == all
    requires Filing(namespaceName, done, records, results) && Zeroed(records) && MadeBy(records, scan)
    modifies re
    ensures !more ==> re.lastIndex == 0 && done == all && done' == done && records' == records
    ensures more ==> done' + TemplateMatches(text, re.lastIndex) == all && |done'| == |done| + 1
    ensures Filing(namespaceName, done', records', results') && Zeroed(records') && MadeBy(records', scan)
  {
    var found := re.Exec(text);
    if found.None? {
      return false, results, done, records;
    }
    ghost var rest := TemplateMatches(text, re.lastIndex);
    assert (done + [found.value]) + rest == all;
    more := true;
    results', done', records' := FileFound(namespaceName, results, found.value, done, records, scan);
  }

  /** The body of the loop once `exec` has matched: file a fresh record for the match. */
  method FileFound(namespaceName: JsValue, results: TemplateTable, m: Match,
                   ghost done: seq<Match>, ghost records: seq<TemplateRecord>, ghost scan: Scan)
    returns (results': TemplateTable, ghost done': seq<Match>, ghost records': seq<TemplateRecord>)
    requires Filing(namespaceName, done, records, results) && Zeroed(records) && MadeBy(records, scan)
    ensures done' == done + [m]
    ensures Filing(namespaceName, done', records', results') && Zeroed(records') && MadeBy(records', scan)
  {
    var record;
    results', record := FileMatch(results, namespaceName, m, scan);
    FileOne(namespaceName, done, records, results, m, record);
    ZeroedAppend(records, record);
    MadeByAppend(records, scan, record);
    done', records' := done + [m], records + [record];
  }

  /** The `exec` loop of `_findAllTemplatesInText`: file a fresh record per match until `exec`
      fails. The ghost outputs are the matches met and the records filed for them. */
  method FileAllMatches(text: string, re: TemplateRegExp, namespaceName: JsValue, ghost scan: Scan)
    returns (results: TemplateTable, ghost done: seq<Match>, ghost records: seq<TemplateRecord>)
    modifies re
    ensures re.lastIndex == 0
    ensures done == TemplateMatches(text, old(re.lastIndex))
    ensures Filing(namespaceName, done, records, results) && Zeroed(records) && MadeBy(records, scan)
  {
    results := map[];
    ghost var all := TemplateMatches(text, re.lastIndex);
    done, records := [], [];
    var more := true;
    while more
      invariant more ==> done + TemplateMatches(text, re.lastIndex) == all
      invariant !more ==> re.lastIndex == 0 && done == all
      invariant |done| <= |all|
      invariant Filing(namespaceName, done, records, results) && Zeroed(records) && MadeBy(records, scan)
      decreases |all| - |done|, more
    {
      more, results, done, records := FileNext(text, re, namespaceName, results, all, done, records, scan);
    }
  }

  /** `_findAllTemplatesInText`: take the first namespace, then call `exec` until it fails,
      filing a fresh record per match. The scan starts wherever `lastIndex` was and leaves it
      at 0, so from a reset expression it covers the whole text. */
  method FindAllTemplatesInText(text: string, re: TemplateRegExp) returns (results: TemplateTable)
    modifies re
    ensures re.lastIndex == 0
    ensures StartsTable(results) == Index(FirstNamespace(text), TemplateMatches(text, old(re.lastIndex)))
    ensures fresh(Records(results)) && Unfilled(results)
  {
    var namespaceName := FirstNamespace(text);
    ghost var scan := new Scan();
    ghost var done, records;
    results, done, records := FileAllMatches(text, re, namespaceName, scan);
    TableIndex(namespaceName, done, records);
    forall k, i | k in results && 0 <= i < |results[k]|
      ensures results[k][i].scan == scan && results[k][i].offsetEnd == 0
    {
      var j :| 0 <= j < |records| && records[j] == results[k][i];
    }
  }
}
