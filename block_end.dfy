/** The block-end resolver: from the `{` of a `{template` marker, walk the soy mode's tokens
    line by line and stop right after the first keyword-styled `{/template` token; when there
    is none, the end of the text is the end of the block.

    The CodeMirror soy mode is an oracle: `Mode.token(line, pos, state)` tokenizes the line
    string from position `pos` and says how many characters it consumed, the token's style and
    the mode's next state. */
module BlockEnd {

  import opened JsText

  /** One call of `mode.token(stream, state)`: characters consumed, style, next state. */
  datatype Step<S> = Step(len: nat, style: string, next: S)

  /** The tokenizer and `CodeMirror.startState(mode)`. A `null` style is any string other than
      "keyword". */
  datatype Mode<!S> = Mode(startState: S, token: (string, nat, S) -> Step<S>)

  /** The mode always consumes at least one character and never runs past the end of the line
      (CodeMirror's StringStream cannot move beyond it; a mode that consumed nothing would make
      the source loop forever). */
  ghost predicate Advances<S(!new)>(mode: Mode<S>) {
    forall line: string, pos: nat, st: S {:trigger mode.token(line, pos, st)} ::
      pos < |line| ==> 1 <= mode.token(line, pos, st).len <= |line| - pos
  }

  /** A token the walk sees: absolute offsets of its first character and just past its last. */
  datatype Token = Token(start: nat, end: nat, style: string, text: string)

  const CloseMarker: string := "{/template"

  predicate IsCloser(t: Token) {
    t.style == "keyword" && t.text == CloseMarker
  }

  /** Characters a step consumes, as the walk counts them: for a mode that `Advances` this is
      `step.len` itself; the bounds only keep the specification total for any other mode. */
  function Consumed<S>(step: Step<S>, line: string, pos: nat): (n: nat)
    requires pos < |line|
    ensures 1 <= n <= |line| - pos
  {
    if step.len < 1 then 1 else if step.len > |line| - pos then |line| - pos else step.len
  }

  /** The tokens of `line` from `pos` on (the line begins at offset `lineStart` of the text),
      and the mode's state after the last of them. */
  function LineTokens<S>(mode: Mode<S>, line: string, pos: nat, lineStart: nat, st: S): (seq<Token>, S)
    requires pos <= |line|
    decreases |line| - pos
  {
    if pos == |line| then ([], st)
    else
      var step := mode.token(line, pos, st);
      var n := Consumed(step, line, pos);
      var t := Token(lineStart + pos, lineStart + pos + n, step.style, line[pos..pos + n]);
      var rest := LineTokens(mode, line, pos + n, lineStart, step.next);
      ([t] + rest.0, rest.1)
  }

  /** Every token of the walk that starts at offset `s` with mode state `st`: the first line
      is the text from `s` up to the next newline, each further line starts one past the
      newline that ended the previous one, and the state carries over from line to line.
      Empty lines yield no tokens. */
  function WalkFrom<S>(mode: Mode<S>, text: string, s: nat, st: S): seq<Token>
    decreases |text| - s
  {
    if s >= |text| then []
    else
      var e := LineEnd(text, s);
      var line := LineTokens(mode, text[s..e], 0, s, st);
      line.0 + WalkFrom(mode, text, e + 1, line.1)
  }

  predicate NoCloser(ts: seq<Token>) {
    forall i :: 0 <= i < |ts| ==> !IsCloser(ts[i])
  }

  /** Index of the first closing token of `ts`, or |ts| when there is none. */
  function FirstClose(ts: seq<Token>): (k: nat)
    ensures k <= |ts|
  {
    if ts == [] then 0
    else if IsCloser(ts[0]) then 0
    else 1 + FirstClose(ts[1..])
  }

  lemma {:induction false} FirstCloseIsFirst(ts: seq<Token>)
    ensures var k := FirstClose(ts);
      (k < |ts| ==> IsCloser(ts[k])) && (forall j :: 0 <= j < k ==> !IsCloser(ts[j])) &&
      (k == |ts| <==> NoCloser(ts))
  {
    if ts != [] && !IsCloser(ts[0]) {
      FirstCloseIsFirst(ts[1..]);
      assert forall j :: 1 <= j < |ts| ==> ts[j] == ts[1..][j - 1];
    }
  }

  /** End of the first closing token of `ts`, or `length` when there is none. */
  function StopOffset(ts: seq<Token>, length: nat): nat {
    var k := FirstClose(ts);
    if k < |ts| then ts[k].end else length
  }

  /** The end offset of the template whose marker starts at `offsetStart`. */
  function EndOffset<S>(mode: Mode<S>, text: string, offsetStart: nat): nat {
    StopOffset(WalkFrom(mode, text, offsetStart, mode.startState), |text|)
  }

  /** The stop rule: the end offset is just past the first keyword-styled `{/template` token
      of the walk, or the length of the text when the walk has none; a `{/template` token of
      any other style does not stop the walk. */
  lemma EndOffsetStopRule<S>(mode: Mode<S>, text: string, offsetStart: nat)
    ensures var ts := WalkFrom(mode, text, offsetStart, mode.startState);
      NoCloser(ts) ==> EndOffset(mode, text, offsetStart) == |text|
    ensures var ts := WalkFrom(mode, text, offsetStart, mode.startState);
      forall i :: 0 <= i < |ts| && IsCloser(ts[i]) && (forall j :: 0 <= j < i ==> !IsCloser(ts[j])) ==>
        EndOffset(mode, text, offsetStart) == ts[i].end
  {
    FirstCloseIsFirst(WalkFrom(mode, text, offsetStart, mode.startState));
  }

  /** `ts` tiles the text from offset `s` on: each token holds exactly the characters between
      its offsets and no newline, tokens follow one another, and only newlines lie before the
      first token, between two tokens and after the last. */
  ghost predicate Tiles(text: string, s: nat, ts: seq<Token>)
    decreases |ts|
  {
    if ts == [] then forall k :: s <= k < |text| ==> text[k] == '\n'
    else
      s <= ts[0].start < ts[0].end <= |text| &&
      (forall k :: s <= k < ts[0].start ==> text[k] == '\n') &&
      ts[0].text == text[ts[0].start..ts[0].end] && '\n' !in ts[0].text &&
      Tiles(text, ts[0].end, ts[1..])
  }

  lemma TilesAfterNewline(text: string, s: nat, ts: seq<Token>)
    requires s < |text| && text[s] == '\n' && Tiles(text, s + 1, ts)
    ensures Tiles(text, s, ts)
  {
  }

  lemma TilesCons(text: string, s: nat, t: Token, ts: seq<Token>)
    requires s == t.start < t.end <= |text| && t.text == text[t.start..t.end] && '\n' !in t.text
    requires Tiles(text, t.end, ts)
    ensures Tiles(text, s, [t] + ts)
  {
    assert ([t] + ts)[1..] == ts;
  }

  /** A slice of a line that holds no newline is the matching slice of the text, and holds
      no newline either. */
  lemma LineSlice(text: string, lineStart: nat, line: string, i: nat, j: nat)
    requires i <= j <= |line| && lineStart + |line| <= |text|
    requires line == text[lineStart..lineStart + |line|] && '\n' !in line
    ensures line[i..j] == text[lineStart + i..lineStart + j] && '\n' !in line[i..j]
  {
    assert forall k :: i <= k < j ==> line[k] == text[lineStart + k];
    assert forall c :: c in line[i..j] ==> c in line;
  }

  lemma {:induction false} LineTokensTile<S>(mode: Mode<S>, text: string, lineStart: nat, line: string,
                                              pos: nat, st: S, rest: seq<Token>)
    requires pos <= |line| && lineStart + |line| <= |text|
    requires line == text[lineStart..lineStart + |line|] && '\n' !in line
    requires Tiles(text, lineStart + |line|, rest)
    ensures Tiles(text, lineStart + pos, LineTokens(mode, line, pos, lineStart, st).0 + rest)
    decreases |line| - pos
  {
    if pos < |line| {
      var step := mode.token(line, pos, st);
      var n := Consumed(step, line, pos);
      var t := Token(lineStart + pos, lineStart + pos + n, step.style, line[pos..pos + n]);
      var tail := LineTokens(mode, line, pos + n, lineStart, step.next).0;
      assert LineTokens(mode, line, pos, lineStart, st).0 == [t] + tail;
      LineTokensTile(mode, text, lineStart, line, pos + n, step.next, rest);
      LineSlice(text, lineStart, line, pos, pos + n);
      TilesCons(text, lineStart + pos, t, tail + rest);
      assert [t] + (tail + rest) == ([t] + tail) + rest;
    } else {
      assert LineTokens(mode, line, pos, lineStart, st).0 + rest == rest;
    }
  }

  /** The line that starts at `s` is a slice of the text without newline. */
  lemma LineIsSlice(text: string, s: nat)
    requires s < |text|
    ensures var line := text[s..LineEnd(text, s)];
      s + |line| <= |text| && line == text[s..s + |line|] && '\n' !in line
  {
    var line := text[s..LineEnd(text, s)];
    forall c | c in line ensures c != '\n' {
      var i :| 0 <= i < |line| && line[i] == c;
      assert c == text[s + i];
    }
  }

  /** The walk tiles the text from where it starts: together its tokens cover every character
      from `s` on except the newlines, each newline moving the running offset by exactly one. */
  lemma {:induction false} WalkTiles<S>(mode: Mode<S>, text: string, s: nat, st: S)
    ensures Tiles(text, s, WalkFrom(mode, text, s, st))
    decreases |text| - s
  {
    if s < |text| {
      var e := LineEnd(text, s);
      var lineText := text[s..e];
      var line := LineTokens(mode, lineText, 0, s, st);
      var rest := WalkFrom(mode, text, e + 1, line.1);
      assert WalkFrom(mode, text, s, st) == line.0 + rest;
      WalkTiles(mode, text, e + 1, line.1);
      NextLineTiles(mode, text, e, rest);
      LineIsSlice(text, s);
      LineTokensTile(mode, text, s, lineText, 0, st, rest);
    }
  }

  lemma NextLineTiles<S>(mode: Mode<S>, text: string, e: nat, rest: seq<Token>)
    requires e <= |text| && (e < |text| ==> text[e] == '\n')
    requires e == |text| ==> rest == []
    requires Tiles(text, e + 1, rest)
    ensures Tiles(text, e, rest)
  {
    if e < |text| {
      TilesAfterNewline(text, e, rest);
    }
  }

  lemma {:induction false} TilesBounds(text: string, s: nat, ts: seq<Token>)
    requires Tiles(text, s, ts)
    ensures forall i :: 0 <= i < |ts| ==> s <= ts[i].start < ts[i].end <= |text|
    ensures forall i, j :: 0 <= i < j < |ts| ==> ts[i].end <= ts[j].start
    decreases |ts|
  {
    if ts != [] {
      TilesBounds(text, ts[0].end, ts[1..]);
      assert forall i :: 1 <= i < |ts| ==> ts[i] == ts[1..][i - 1];
    }
  }

  /** The end offset of a marker inside the text lies after the marker's start and within the
      text; so a computed end offset is never 0, the value that marks "not computed". */
  lemma EndOffsetBounds<S>(mode: Mode<S>, text: string, offsetStart: nat)
    requires offsetStart <= |text|
    ensures offsetStart <= EndOffset(mode, text, offsetStart) <= |text|
    ensures offsetStart < |text| ==> offsetStart < EndOffset(mode, text, offsetStart)
  {
    var ts := WalkFrom(mode, text, offsetStart, mode.startState);
    WalkTiles(mode, text, offsetStart, mode.startState);
    TilesBounds(text, offsetStart, ts);
  }

  lemma StopOffsetCons(t: Token, ts: seq<Token>, length: nat)
    ensures StopOffset([t] + ts, length) == if IsCloser(t) then t.end else StopOffset(ts, length)
  {
    assert ([t] + ts)[1..] == ts;
  }

  /** The tokens still ahead of a walk that is at position `pos` of the stream for `line`,
      which begins at `lineStart` and runs up to a newline or the end of the text. */
  function Ahead<S>(mode: Mode<S>, text: string, lineStart: nat, line: string, pos: nat, st: S): seq<Token>
    requires pos <= |line|
  {
    var here := LineTokens(mode, line, pos, lineStart, st);
    here.0 + WalkFrom(mode, text, lineStart + |line| + 1, here.1)
  }

  lemma AheadOfFreshLine<S>(mode: Mode<S>, text: string, lineStart: nat, st: S)
    requires lineStart < |text|
    ensures Ahead(mode, text, lineStart, text[lineStart..LineEnd(text, lineStart)], 0, st) == WalkFrom(mode, text, lineStart, st)
  {
  }

  lemma AheadOfEndOfLine<S>(mode: Mode<S>, text: string, lineStart: nat, line: string, st: S)
    ensures Ahead(mode, text, lineStart, line, |line|, st) == WalkFrom(mode, text, lineStart + |line| + 1, st)
  {
    assert LineTokens(mode, line, |line|, lineStart, st).0 == [];
  }

  lemma AheadOfToken<S>(mode: Mode<S>, text: string, lineStart: nat, line: string, pos: nat, st: S)
    requires pos < |line|
    ensures var step := mode.token(line, pos, st);
      var n := Consumed(step, line, pos);
      Ahead(mode, text, lineStart, line, pos, st) ==
        [Token(lineStart + pos, lineStart + pos + n, step.style, line[pos..pos + n])] +
        Ahead(mode, text, lineStart, line, pos + n, step.next)
  {
  }

  /** What the walk knows between tokens: either no stream yet (at `offsetStart` in the start
      state) or a stream over a whole line, at position `pos`; `ahead` is the rest of the walk
      from there. */
  ghost predicate WalkInvariant<S>(mode: Mode<S>, text: string, offsetStart: nat, ahead: seq<Token>,
                                   hasStream: bool, curOffset: nat, lineStart: nat, line: string, pos: nat, state: S)
  {
    (!hasStream ==> curOffset == offsetStart && state == mode.startState &&
                    ahead == WalkFrom(mode, text, offsetStart, state)) &&
    (hasStream ==> lineStart + |line| <= |text| && pos <= |line| && curOffset == lineStart + pos &&
                   ahead == Ahead(mode, text, lineStart, line, pos, state))
  }

  /** `nextLine` opens a stream over the whole line that starts at `next`. */
  lemma OpenLineKeepsInvariant<S>(mode: Mode<S>, text: string, offsetStart: nat, ahead: seq<Token>, next: nat, state: S)
    requires next < |text|
    requires ahead == WalkFrom(mode, text, next, state)
    ensures WalkInvariant(mode, text, offsetStart, ahead, true, next, next, text[next..LineEnd(text, next)], 0, state)
  {
    AheadOfFreshLine(mode, text, next, state);
  }

  /** The `while (!stream || stream.eol())` loop of `nextToken`, with `nextLine` inlined: open
      the next line that has characters left, or report that the text is exhausted. */
  method NextNonEmptyLine<S>(mode: Mode<S>, text: string, ghost offsetStart: nat, ghost ahead: seq<Token>,
                             hasStream0: bool, curOffset0: nat, lineStart0: nat, line0: string, pos0: nat, state: S)
    returns (more: bool, curOffset: nat, lineStart: nat, line: string, pos: nat)
    requires curOffset0 < |text|
    requires WalkInvariant(mode, text, offsetStart, ahead, hasStream0, curOffset0, lineStart0, line0, pos0, state)
    ensures !more ==> ahead == []
    ensures more ==> pos < |line| && curOffset0 <= curOffset
    ensures more ==> WalkInvariant(mode, text, offsetStart, ahead, true, curOffset, lineStart, line, pos, state)
  {
    var hasStream := hasStream0;
    curOffset, lineStart, line, pos := curOffset0, lineStart0, line0, pos0;
    while !hasStream || pos == |line|
      invariant curOffset0 <= curOffset < |text|
      invariant WalkInvariant(mode, text, offsetStart, ahead, hasStream, curOffset, lineStart, line, pos, state)
      decreases |text| - curOffset + (if hasStream then 0 else 1)
    {
      if hasStream {
        AheadOfEndOfLine(mode, text, lineStart, line, state);
        curOffset := curOffset + 1;  // account for the newline
        if curOffset >= |text| {
          return false, curOffset, lineStart, line, pos;
        }
      }
      OpenLineKeepsInvariant(mode, text, offsetStart, ahead, curOffset, state);
      lineStart := curOffset;
      var lineEnd := LineEnd(text, lineStart);
      line := text[curOffset..lineEnd];
      pos := 0;
      hasStream := true;
    }
    more := true;
  }

  lemma WalkExhausted<S>(mode: Mode<S>, text: string, offsetStart: nat, ahead: seq<Token>,
                         hasStream: bool, curOffset: nat, lineStart: nat, line: string, pos: nat, state: S)
    requires curOffset >= |text|
    requires WalkInvariant(mode, text, offsetStart, ahead, hasStream, curOffset, lineStart, line, pos, state)
    ensures ahead == []
  {
    if hasStream {
      AheadOfEndOfLine(mode, text, lineStart, line, state);
    }
  }

  /** One token of the walk: `ahead` splits into the token just read and the walk after it. */
  lemma WalkStep<S(!new)>(mode: Mode<S>, text: string, offsetStart: nat, ahead: seq<Token>,
                          lineStart: nat, line: string, pos: nat, state: S, pos': nat, state': S)
    requires Advances(mode) && pos < |line|
    requires WalkInvariant(mode, text, offsetStart, ahead, true, lineStart + pos, lineStart, line, pos, state)
    requires pos' == pos + mode.token(line, pos, state).len && state' == mode.token(line, pos, state).next
    ensures pos' <= |line|
    ensures var step := mode.token(line, pos, state);
      ahead == [Token(lineStart + pos, lineStart + pos', step.style, line[pos..pos'])] +
               Ahead(mode, text, lineStart, line, pos', state')
    ensures WalkInvariant(mode, text, offsetStart, Ahead(mode, text, lineStart, line, pos', state'),
                          true, lineStart + pos', lineStart, line, pos', state')
  {
    var step := mode.token(line, pos, state);
    assert Consumed(step, line, pos) == step.len;
    AheadOfToken(mode, text, lineStart, line, pos, state);
  }

  /** The walk of `_getTemplateEndOffset`: `curOffset` is the running offset, `line`/`pos` the
      current StringStream (`hasStream` once one exists), `state` the mode state. */
  method GetTemplateEndOffset<S(!new)>(mode: Mode<S>, text: string, offsetStart: nat) returns (r: nat)
    requires Advances(mode)
    ensures r == EndOffset(mode, text, offsetStart)
  {
    var state := mode.startState;
    var curOffset: nat := offsetStart;
    var length := |text|;
    var hasStream := false;
    var lineStart: nat := 0;
    var line: string := [];
    var pos: nat := 0;
    ghost var ahead := WalkFrom(mode, text, offsetStart, state);
    while true
      invariant WalkInvariant(mode, text, offsetStart, ahead, hasStream, curOffset, lineStart, line, pos, state)
      invariant StopOffset(ahead, length) == EndOffset(mode, text, offsetStart)
      decreases length - curOffset + (if hasStream then 0 else 1)
    {
      // nextToken
      if curOffset >= length {
        WalkExhausted(mode, text, offsetStart, ahead, hasStream, curOffset, lineStart, line, pos, state);
        return length;
      }
      var more;
      more, curOffset, lineStart, line, pos :=
        NextNonEmptyLine(mode, text, offsetStart, ahead, hasStream, curOffset, lineStart, line, pos, state);
      if !more {
        return length;
      }
      hasStream := true;
      var step := mode.token(line, pos, state);
      var tokenStart := pos;
      ghost var state0 := state;
      pos := pos + step.len;
      state := step.next;
      WalkStep(mode, text, offsetStart, ahead, lineStart, line, tokenStart, state0, pos, state);
      var token := line[tokenStart..pos];
      ghost var rest := Ahead(mode, text, lineStart, line, pos, state);
      StopOffsetCons(Token(lineStart + tokenStart, lineStart + pos, step.style, token), rest, length);
      curOffset := lineStart + pos;
      if step.style == "keyword" && token == CloseMarker {
        return curOffset;
      }
      ahead := rest;
    }
  }
}
