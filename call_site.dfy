/** The call-site side of the inline editor: the name of the template called on the cursor's
    line, read from the line's tokens, and the guards that decide whether an editor is
    offered at all. */
module CallSite {

  import opened Wrappers
  import opened JsText
  import opened Scanner

  /** A token of `getLineTokens`: its text (`string`) and its style (`type`). */
  datatype LineToken = LineToken(text: string, kind: string)

  /** The token that opens a call: the keyword `{call`. */
  predicate IsCallKeyword(t: LineToken) {
    t.text == "{call" && t.kind == "keyword"
  }

  /** `needle` occurs in `hay` at position `i`. */
  predicate OccursAt(hay: string, needle: string, i: nat) {
    i + |needle| <= |hay| && hay[i..i + |needle|] == needle
  }

  /** `hay.indexOf(needle, from)`: the first position at or after `from` where `needle`
      occurs, or -1. */
  function IndexOf(hay: string, needle: string, from: nat): (r: int)
    decreases |hay| - from
    ensures r == -1 || (from <= r && OccursAt(hay, needle, r))
    ensures r != -1 ==> forall i :: from <= i < r ==> !OccursAt(hay, needle, i)
    ensures r == -1 ==> forall i :: from <= i ==> !OccursAt(hay, needle, i)
  {
    if from + |needle| > |hay| then -1
    else if hay[from..from + |needle|] == needle then from
    else IndexOf(hay, needle, from + 1)
  }

  /** The `blackList` of `_getTemplateName`. */
  const BlackList: string := "/} "

  /** A token that ends the name: one whose text occurs somewhere in the black list. */
  predicate IsStopper(s: string) {
    IndexOf(BlackList, s, 0) != -1
  }

  /** The stoppers are exactly the seven infixes of "/} ", the empty text among them; a
      token that merely contains one of them, such as "a/b", does not stop the name. */
  lemma StopperCases(s: string)
    ensures IsStopper(s) <==> s in {"", "/", "}", " ", "/}", "} ", "/} "}
  {
    var r := IndexOf(BlackList, s, 0);
    if r != -1 {
      assert OccursAt(BlackList, s, r);
      var n := |s|;
      if r == 0 {
        if n == 1 { assert s == BlackList[0..1] == "/"; }
        else if n == 2 { assert s == BlackList[0..2] == "/}"; }
        else if n == 3 { assert s == BlackList[0..3] == "/} "; }
      } else if r == 1 {
        if n == 1 { assert s == BlackList[1..2] == "}"; }
        else if n == 2 { assert s == BlackList[1..3] == "} "; }
      } else if r == 2 {
        if n == 1 { assert s == BlackList[2..3] == " "; }
      }
    }
    if s in {"", "/", "}", " ", "/}", "} ", "/} "} {
      if s == "" { assert BlackList[0..0] == s; assert OccursAt(BlackList, s, 0); }
      else if s == "/" { assert BlackList[0..1] == s; assert OccursAt(BlackList, s, 0); }
      else if s == "}" { assert BlackList[1..2] == s; assert OccursAt(BlackList, s, 1); }
      else if s == " " { assert BlackList[2..3] == s; assert OccursAt(BlackList, s, 2); }
      else if s == "/}" { assert BlackList[0..2] == s; assert OccursAt(BlackList, s, 0); }
      else if s == "} " { assert BlackList[1..3] == s; assert OccursAt(BlackList, s, 1); }
      else { assert BlackList[0..3] == s; assert OccursAt(BlackList, s, 0); }
    }
  }

  /** The position of the first `{call` keyword token at or after `from`. */
  function CallFrom(ts: seq<LineToken>, from: nat): (r: Option<nat>)
    decreases |ts| - from
    ensures r.Some? ==> from <= r.value < |ts| && IsCallKeyword(ts[r.value])
    ensures r.Some? ==> forall k :: from <= k < r.value ==> !IsCallKeyword(ts[k])
    ensures r.None? ==> forall k :: from <= k < |ts| ==> !IsCallKeyword(ts[k])
  {
    if from >= |ts| then None
    else if IsCallKeyword(ts[from]) then Some(from)
    else CallFrom(ts, from + 1)
  }

  /** The first `{call` keyword token of the line, the only one that starts a name. */
  function CallStart(ts: seq<LineToken>): Option<nat> {
    CallFrom(ts, 0)
  }

  /** The texts of the tokens from `from` on, joined up to (not including) the first
      stopper. */
  function Collect(ts: seq<LineToken>, from: nat): string
    decreases |ts| - from
  {
    if from >= |ts| || IsStopper(ts[from].text) then "" else ts[from].text + Collect(ts, from + 1)
  }

  /** The texts of `ts`, joined in order. */
  function Join(ts: seq<LineToken>): string {
    if ts == [] then "" else ts[0].text + Join(ts[1..])
  }

  /** What `Collect` gathers: the tokens from `from` to the first stopper, all of them and
      nothing after it. */
  lemma {:induction false} CollectUpToStopper(ts: seq<LineToken>, from: nat, e: nat)
    requires from <= e <= |ts|
    requires forall k :: from <= k < e ==> !IsStopper(ts[k].text)
    requires e == |ts| || IsStopper(ts[e].text)
    ensures Collect(ts, from) == Join(ts[from..e])
    decreases e - from
  {
    if from < e {
      CollectUpToStopper(ts, from + 1, e);
      assert ts[from..e][1..] == ts[from + 1..e];
    }
  }

  /** `Collect` reads nothing before `from`. */
  lemma {:induction false} CollectIsLocal(ts: seq<LineToken>, us: seq<LineToken>, from: nat)
    requires |ts| == |us| && forall k :: from <= k < |ts| ==> ts[k] == us[k]
    ensures Collect(ts, from) == Collect(us, from)
    decreases |ts| - from
  {
    if from < |ts| {
      CollectIsLocal(ts, us, from + 1);
    }
  }

  /** The name `_getTemplateName` collects, before the namespace is prepended: the tokens
      from two after the first `{call` keyword up to the first stopper. It is empty exactly
      when the line has no `{call` keyword, or the token two after it is missing or a
      stopper; any token collected is non-empty, since "" is a stopper. */
  function CalledName(ts: seq<LineToken>): (r: string)
    ensures r == "" <==>
      CallStart(ts).None? || CallStart(ts).value + 2 >= |ts| || IsStopper(ts[CallStart(ts).value + 2].text)
  {
    match CallStart(ts)
    case None => ""
    case Some(c) =>
      assert IsStopper("") by { assert OccursAt(BlackList, "", 0); }
      Collect(ts, c + 2)
  }

  /** The name is the tokens from two after the first `{call` keyword up to the first
      stopper at or after that point (or the end of the line), joined. */
  lemma CalledNameSpan(ts: seq<LineToken>, c: nat, e: nat)
    requires CallStart(ts) == Some(c) && c + 2 <= e <= |ts|
    requires forall k :: c + 2 <= k < e ==> !IsStopper(ts[k].text)
    requires e == |ts| || IsStopper(ts[e].text)
    ensures CalledName(ts) == Join(ts[c + 2..e])
  {
    CollectUpToStopper(ts, c + 2, e);
  }

  /** The token right after `{call` (in the soy mode, the space before the name) never
      takes part in the name, whatever it is. */
  lemma TokenAfterCallIgnored(ts: seq<LineToken>, t: LineToken)
    requires CallStart(ts).Some? && CallStart(ts).value + 1 < |ts|
    ensures CalledName(ts[CallStart(ts).value + 1 := t]) == CalledName(ts)
  {
    var c := CallStart(ts).value;
    var us := ts[c + 1 := t];
    assert forall k :: 0 <= k <= c ==> us[k] == ts[k];
    assert CallFrom(us, 0) == Some(c);
    CollectIsLocal(ts, us, c + 2);
  }

  /** A name that starts with "." is relative to the namespace, which `+` turns into a
      string ("undefined" or "null" when there is none); any other name is used as it is. */
  function Qualify(ns: JsValue, name: string): (r: string)
    ensures r == "" <==> name == ""
    ensures |name| <= |r| && r[|r| - |name|..] == name
  {
    if |name| > 0 && name[0] == '.' then ToJsString(ns) + name else name
  }

  /** The namespace `_getTemplateName` sees when it prepends it: the trimmed capture of the
      document's first namespace declaration, or null when there is none, once the document
      has been read; `undefined` when it could not be read in time. */
  function CallerNamespace(doc: Option<string>): (ns: JsValue)
    ensures ns == Undefined <==> doc.None?
  {
    match doc
    case None => Undefined
    case Some(text) => FirstNamespace(text)
  }

  /** A relative call in a document resolves to the very key under which the indexer files a
      relative declaration of the same name in that document. */
  lemma RelativeCallMatchesDeclaration(text: string, m: Match)
    requires |Trim(m.capture)| > 0 && Trim(m.capture)[0] == '.'
    ensures Qualify(CallerNamespace(Some(text)), Trim(m.capture)) == QualifiedName(FirstNamespace(text), m)
  {
  }

  /** `_getTemplateName`: walk the line's tokens, start collecting two tokens after the first
      `{call` keyword, stop at the first stopper, then prepend the namespace to a relative
      name. */
  method GetTemplateName(tokenArray: seq<LineToken>, namespaceName: JsValue) returns (templateName: string)
    ensures templateName == Qualify(namespaceName, CalledName(tokenArray))
  {
    var fnBegin := 0;
    templateName := "";
    for i := 0 to |tokenArray|
      invariant fnBegin == 0 ==> templateName == "" && forall k :: 0 <= k < i ==> !IsCallKeyword(tokenArray[k])
      invariant fnBegin != 0 ==> 2 <= fnBegin && CallStart(tokenArray) == Some(fnBegin - 2) && fnBegin - 2 < i
      invariant fnBegin != 0 ==>
        templateName + Collect(tokenArray, if i < fnBegin then fnBegin else i) == Collect(tokenArray, fnBegin)
    {
      if fnBegin == 0 && IsCallKeyword(tokenArray[i]) {
        fnBegin := i + 2;
      }
      if fnBegin > 0 && fnBegin <= i {
        if !IsStopper(tokenArray[i].text) {
          templateName := templateName + tokenArray[i].text;
        } else {
          assert templateName == Collect(tokenArray, fnBegin);
          break;
        }
      }
    }
    assert templateName == CalledName(tokenArray);
    if |templateName| > 0 && templateName[0] == '.' {
      templateName := ToJsString(namespaceName) + templateName;
    }
  }

  /** A cursor position and a selection of the host editor. */
  datatype Position = Position(line: nat, ch: nat)
  datatype Selection = Selection(start: Position, end: Position)

  /** What `provider` returns: null, or the promise of an inline editor for a name. */
  datatype Offer = NoEditor | InlineEditor(templateName: string)

  /** `provider`: offer nothing outside SOY content or for a selection over several lines;
      otherwise read the called name on the selection's line and offer an editor for it,
      or nothing when the name is empty (the reason is always null). */
  method Provider(modeAtSelection: string, sel: Selection, lineTokens: nat -> seq<LineToken>, doc: Option<string>)
    returns (r: Offer)
    ensures modeAtSelection != "soy" ==> r == NoEditor
    ensures sel.start.line != sel.end.line ==> r == NoEditor
    ensures modeAtSelection == "soy" && sel.start.line == sel.end.line ==>
      (r == NoEditor <==> CalledName(lineTokens(sel.start.line)) == "") &&
      (r.InlineEditor? ==> r.templateName == Qualify(CallerNamespace(doc), CalledName(lineTokens(sel.start.line))))
  {
    if modeAtSelection != "soy" {
      return NoEditor;
    }
    if sel.start.line != sel.end.line {
      return NoEditor;
    }
    var templateName := GetTemplateName(lineTokens(sel.start.line), CallerNamespace(doc));
    if templateName == "" {
      return NoEditor;
    }
    return InlineEditor(templateName);
  }
}
