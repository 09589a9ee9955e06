/** `validate_structured_info`: compares each of nine extracted fields with
    its reference value and classifies the pair as null, match or
    hallucination. The comparison is exact equality of the normalised
    strings; the threshold argument is accepted and never read. */
module Validations {
  import opened Values
  import opened DataModels

  /** The fields checked, in the order the result dict is filled. */
  const Fields: seq<string> := [
    "text_quality_score", "courier_partner", "awb_number", "recipient_name",
    "recipient_address", "recipient_signature", "recipient_stamp", "delivery_date",
    "handwritten_notes"
  ]

  datatype Status = Null | Match | Hallucination

  /** One entry of `field_results`. */
  datatype FieldResult = FieldResult(status: Status, score: int, extractedValue: Value, referenceValue: Value)

  /** The value compared for an extracted attribute: the `"text"` entry of a
      dict that has one, otherwise the attribute itself. */
  function Compared(extracted: Value): (r: Value)
    ensures extracted.Dict? && HasKey(extracted.entries, "text") ==>
              exists k :: 0 <= k < |extracted.entries| && extracted.entries[k] == ("text", r)
    ensures !(extracted.Dict? && HasKey(extracted.entries, "text")) ==> r == extracted
  {
    if extracted.Dict? && HasKey(extracted.entries, "text") then Get(extracted.entries, "text") else extracted
  }

  /** `reference_info.get(field) if reference_info else None` */
  function ReferenceFor(referenceInfo: Optional<seq<(string, Value)>>, field: string): (r: Value)
    ensures referenceInfo == Absent || referenceInfo == Present([]) ==> r == None
    ensures referenceInfo.Present? && !HasKey(referenceInfo.value, field) ==> r == None
    ensures referenceInfo.Present? && HasKey(referenceInfo.value, field) ==>
              exists k :: 0 <= k < |referenceInfo.value| && referenceInfo.value[k] == (field, r)
  {
    match referenceInfo
    case Absent => None
    case Present(entries) => if entries == [] then None else Get(entries, field)
  }

  /** The classification of one (extracted, reference) pair. */
  function Classify(extracted: Value, reference: Value): (r: FieldResult)
    ensures r.extractedValue == extracted && r.referenceValue == reference
    ensures r.status == Null <==> extracted == None || reference == None
    ensures r.score == (if r.status == Match then 100 else 0)
  {
    if extracted == None || reference == None then
      FieldResult(Null, 0, extracted, reference)
    else if Normalise(Show(extracted)) == Normalise(Show(reference)) then
      FieldResult(Match, 100, extracted, reference)
    else
      FieldResult(Hallucination, 0, extracted, reference)
  }

  /** The entry `validate_structured_info` records for one field. */
  function FieldResultFor(info: StructuredInfo, referenceInfo: Optional<seq<(string, Value)>>, field: string): FieldResult
  {
    Classify(Compared(info.Attr(field)), ReferenceFor(referenceInfo, field))
  }

  /** Fills `field_results` one field at a time. The result has exactly the
      nine field names as keys, and what it records for a field depends on
      the structured and reference info only, never on `threshold`. */
  method ValidateStructuredInfo(info: StructuredInfo, referenceInfo: Optional<seq<(string, Value)>>, threshold: int)
    returns (fieldResults: map<string, FieldResult>)
    ensures fieldResults.Keys == set f | f in Fields
    ensures forall f :: f in fieldResults ==> fieldResults[f] == FieldResultFor(info, referenceInfo, f)
  {
    fieldResults := map[];
    for i := 0 to |Fields|
      invariant fieldResults.Keys == set f | f in Fields[..i]
      invariant forall f :: f in fieldResults ==> fieldResults[f] == FieldResultFor(info, referenceInfo, f)
    {
      var field := Fields[i];
      var extracted := info.Attr(field);
      var ref := if referenceInfo.Present? && referenceInfo.value != [] then Get(referenceInfo.value, field) else None;
      var extractedValue := if extracted.Dict? && HasKey(extracted.entries, "text") then Get(extracted.entries, "text") else extracted;
      var referenceValue := ref;
      var status, score;
      if extractedValue == None || referenceValue == None {
        status, score := Null, 0;
      } else if Normalise(Show(extractedValue)) == Normalise(Show(referenceValue)) {
        status, score := Match, 100;
      } else {
        status, score := Hallucination, 0;
      }
      fieldResults := fieldResults[field := FieldResult(status, score, extractedValue, referenceValue)];
      assert Fields[..i + 1] == Fields[..i] + [field];
    }
    assert Fields[..|Fields|] == Fields;
  }

  /** Equal up to ASCII case, character by character. */
  predicate SameIgnoringCase(a: string, b: string)
  {
    |a| == |b| && forall k :: 0 <= k < |a| ==> LowerChar(a[k]) == LowerChar(b[k])
  }

  /** Two present values match exactly when their stripped string forms
      agree up to case; otherwise the pair is a hallucination. */
  lemma {:induction false} MatchIffSameIgnoringCase(extracted: Value, reference: Value)
    requires extracted != None && reference != None
    ensures Classify(extracted, reference).status == Match <==>
              SameIgnoringCase(Strip(Show(extracted)), Strip(Show(reference)))
    ensures Classify(extracted, reference).status != Match ==>
              Classify(extracted, reference).status == Hallucination
  {
    var a, b := Strip(Show(extracted)), Strip(Show(reference));
    if SameIgnoringCase(a, b) {
      assert Lower(a) == Lower(b);
    }
  }

  /** Swapping the two sides gives the same status and score. */
  lemma ClassifySymmetric(a: Value, b: Value)
    ensures Classify(a, b).status == Classify(b, a).status
    ensures Classify(a, b).score == Classify(b, a).score
  {
  }

  /** Any present value matches itself. */
  lemma ClassifyReflexive(a: Value)
    requires a != None
    ensures Classify(a, a).status == Match && Classify(a, a).score == 100
  {
  }

  /** Whitespace around an extracted string never changes its status. */
  lemma {:induction false} PaddingIgnored(w1: string, s: string, w2: string, reference: Value)
    requires AllSpace(w1) && AllSpace(w2)
    ensures Classify(Str(w1 + s + w2), reference).status == Classify(Str(s), reference).status
  {
    StripIgnoresPadding(w1, s, w2);
  }

  /** A string matches its own lower-cased form, whatever its case. */
  lemma LowerCasedMatches(s: string)
    ensures Classify(Str(s), Str(Lower(s))).status == Match
    ensures Classify(Str(s), Str(Lower(s))).score == 100
  {
    NormaliseIgnoresCase(s);
  }

  /** "ABC" against "abc" is a match with score 100. */
  lemma CaseOnlyDifferenceMatches()
    ensures Classify(Str("ABC"), Str("abc")) == FieldResult(Match, 100, Str("ABC"), Str("abc"))
  {
    LowerExample();
    LowerCasedMatches("ABC");
  }

  /** With no reference info at all (`None` or an empty dict) every field is
      null with score 0, whatever was extracted. */
  lemma NoReferenceAllNull(info: StructuredInfo, referenceInfo: Optional<seq<(string, Value)>>, field: string)
    requires referenceInfo == Absent || referenceInfo == Present([])
    ensures FieldResultFor(info, referenceInfo, field).status == Null
    ensures FieldResultFor(info, referenceInfo, field).score == 0
  {
  }

  /** A field the structured info leaves at `None`, or whose dict carries a
      `"text"` entry of `None`, is null whatever the reference says. */
  lemma MissingExtractionIsNull(info: StructuredInfo, referenceInfo: Optional<seq<(string, Value)>>, field: string)
    requires info.Attr(field) == None
             || (info.Attr(field).Dict? && HasKey(info.Attr(field).entries, "text")
                 && Get(info.Attr(field).entries, "text") == None)
    ensures FieldResultFor(info, referenceInfo, field).status == Null
  {
  }
}
