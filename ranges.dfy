/** Lazy range materialisation (`_computeOffsets`): the end offset and the two line numbers of
    a marker record are worked out the first time a query needs them and stored on the record
    itself, so every table that shares the record sees them from then on. */
module Ranges {

  import opened JsText
  import opened BlockEnd
  import opened Scanner

  /** One entry of `rangeResults`: the document (by path), the template name, and the 0-based
      inclusive range of lines the template occupies. */
  datatype Range = Range(path: string, name: string, lineStart: nat, lineEnd: nat)

  /** The line range of the template whose marker starts at `offsetStart`. */
  function LinesOf<S>(mode: Mode<S>, text: string, offsetStart: nat): (lines: (nat, nat))
  {
    (LineOf(text, offsetStart), LineOf(text, EndOffset(mode, text, offsetStart)))
  }

  /** The range never runs backwards: the closing line is at or after the opening one, whatever
      the offset (one past the end of the text falls on the last line). */
  lemma LinesOrdered<S>(mode: Mode<S>, text: string, offsetStart: nat)
    ensures LinesOf(mode, text, offsetStart).0 <= LinesOf(mode, text, offsetStart).1
  {
    if offsetStart <= |text| {
      EndOffsetBounds(mode, text, offsetStart);
      LineOfMonotone(text, offsetStart, EndOffset(mode, text, offsetStart));
    } else {
      assert WalkFrom(mode, text, offsetStart, mode.startState) == [];
    }
  }

  /** A record after `_computeOffsets` has seen it: one whose `offsetEnd` was falsy now holds the
      end offset of its block and the lines of both ends; any other is left as it was. */
  twostate predicate Materialised<S>(mode: Mode<S>, text: string, r: TemplateRecord)
    reads r
  {
    if old(r.offsetEnd) == 0 then
      r.offsetEnd == EndOffset(mode, text, r.offsetStart) &&
      (r.lineStart, r.lineEnd) == LinesOf(mode, text, r.offsetStart)
    else
      unchanged(r)
  }

  /** A record whose `offsetEnd` is falsy holds what filling it in would store, so filling it
      in again changes nothing. Every record `_computeOffsets` has seen is settled. */
  predicate Settled<S>(mode: Mode<S>, text: string, r: TemplateRecord)
    reads r
  {
    r.offsetEnd == 0 ==>
      EndOffset(mode, text, r.offsetStart) == 0 && (r.lineStart, r.lineEnd) == LinesOf(mode, text, r.offsetStart)
  }

  /** The body of the `forEach` callback up to the push: fill in the three fields of a record
      whose `offsetEnd` is falsy. */
  method Materialise<S(!new)>(mode: Mode<S>, text: string, record: TemplateRecord)
    requires Advances(mode)
    modifies record
    ensures Materialised(mode, text, record) && Settled(mode, text, record)
    ensures old(Settled(mode, text, record)) ==> unchanged(record)
  {
    if record.offsetEnd == 0 {
      var offsetEnd := GetTemplateEndOffset(mode, text, record.offsetStart);
      record.offsetEnd := offsetEnd;
      record.lineStart := LineOf(text, record.offsetStart);
      record.lineEnd := LineOf(text, offsetEnd);
    }
  }

  /** `_computeOffsets`: for each record in order, fill in the three fields when `offsetEnd` is
      falsy, then push one range built from the record's line fields. A record listed twice is
      settled by its first visit, so the second changes nothing. */
  method ComputeOffsets<S(!new)>(mode: Mode<S>, path: string, text: string, templateName: string,
                                 templates: seq<TemplateRecord>, rangeResults: seq<Range>)
    returns (results: seq<Range>)
    requires Advances(mode)
    modifies templates
    ensures |results| == |rangeResults| + |templates| && results[..|rangeResults|] == rangeResults
    ensures forall i :: 0 <= i < |templates| ==>
      results[|rangeResults| + i] == Range(path, templateName, templates[i].lineStart, templates[i].lineEnd)
    ensures forall i :: 0 <= i < |templates| ==> Materialised(mode, text, templates[i])
  {
    results := rangeResults;
    for i := 0 to |templates|
      invariant |results| == |rangeResults| + i && results[..|rangeResults|] == rangeResults
      invariant forall j :: 0 <= j < i ==>
        results[|rangeResults| + j] == Range(path, templateName, templates[j].lineStart, templates[j].lineEnd)
      invariant forall j :: 0 <= j < i ==>
        Materialised(mode, text, templates[j]) && Settled(mode, text, templates[j])
      invariant forall j :: i <= j < |templates| ==> templates[j] in templates[..i] || unchanged(templates[j])
    {
      var record := templates[i];
      Materialise(mode, text, record);
      results := results + [Range(path, templateName, record.lineStart, record.lineEnd)];
    }
  }
}
