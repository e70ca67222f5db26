/** The part of the PDF object model that a cue point dictionary is built from:
    names used as dictionary keys, the kinds of object a dictionary can hold,
    and insertion into a dictionary. The classes behind them (PdfName,
    PdfString, PdfNumber, PdfIndirectReference, PdfDictionary) are modelled
    only as values; their interning, hashing and serialisation are not. */
module PdfObjects {

  /** A PDF name object, compared by its text. */
  datatype Name = Name(text: string)

  /** A PDF object, tagged by its runtime kind. */
  datatype Value =
    | NameVal(name: Name)                           // a PdfName used as a value
    | Str(text: string)                             // a PdfString
    | Num(number: int)                              // a PdfNumber
    | Dict(entries: map<Name, Value>)               // a PdfDictionary or any subclass (PdfStream included: its bytes are not modelled)
    | IndirectRef(objNumber: nat, generation: nat)  // a PdfIndirectReference
    | Other(kind: string)                           // any other object (array, boolean, null, ...)

  /** The entries of a dictionary. */
  type Entries = map<Name, Value>

  // The names a cue point dictionary uses.
  const TypeKey := Name("Type")
  const SubtypeKey := Name("Subtype")
  const NameKey := Name("Name")
  const TimeKey := Name("Time")
  const ActionKey := Name("A")
  const CuePointType := Name("CuePoint")
  const Navigation := Name("Navigation")

  /** d and r hold the same entry (or both none) under every key outside ks. */
  ghost predicate AgreeOutside(d: Entries, r: Entries, ks: set<Name>)
  {
    forall k :: k !in ks ==> (k in d <==> k in r) && (k in d ==> d[k] == r[k])
  }

  /** Dictionary insertion: v is stored under k, replacing any earlier entry,
      and every other entry stays as it was. */
  function Put(d: Entries, k: Name, v: Value): (r: Entries)
    ensures k in r && r[k] == v
    ensures r.Keys == d.Keys + {k}
    ensures AgreeOutside(d, r, {k})
  {
    d[k := v]
  }
}
