/** The shapes of the pydantic models a row's JSON document is parsed into:
    `StructuredImageProperty` and `ImageMaster`. */
module DataModels {
  import opened Values

  /** The attributes `StructuredImageProperty` declares, in declaration
      order; `model_dump()` yields them in this order. */
  const PropertyNames: seq<string> := [
    "text_quality_score", "courier_partner", "awb_number", "recipient_name",
    "recipient_address", "recipient_signature", "recipient_stamp", "delivery_date",
    "handwritten_notes"
  ]

  /** A `StructuredImageProperty`: each declared attribute holds a value,
      and an attribute left out of the JSON defaults to `None`. */
  datatype StructuredInfo = StructuredInfo(attrs: map<string, Value>)
  {
    /** `getattr(structured_info, name, None)` */
    function Attr(name: string): Value
    {
      if name in attrs then attrs[name] else None
    }

    /** `structured_info.model_dump().items()`: every declared attribute
        with its value, in declaration order. */
    function Dump(): (d: seq<(string, Value)>)
      ensures |d| == |PropertyNames|
      ensures forall k :: 0 <= k < |d| ==> d[k] == (PropertyNames[k], Attr(PropertyNames[k]))
    {
      seq(|PropertyNames|, k requires 0 <= k < |PropertyNames| => (PropertyNames[k], Attr(PropertyNames[k])))
    }
  }

  /** An `ImageMaster`: `reference_info` is a `Dict[str, Any]` or `None`. */
  datatype ImageMaster = ImageMaster(
    imageUrl: Optional<string>,
    structuredInfo: Optional<StructuredInfo>,
    referenceInfo: Optional<seq<(string, Value)>>)
}
