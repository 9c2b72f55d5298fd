/** The list-valued fields of a place (`services`, `servicesOffered`, `tags`)
    as the update operations receive them from a form. */
module PlaceFields {
  import opened Text

  /** Either an array of strings or one comma-joined string. */
  datatype ListInput = AsArray(items: seq<string>) | AsText(text: string)

  /** `Array.isArray(v) ? v.map(s => s.trim()) : v.split(',').map(s => s.trim())`:
      every element trimmed, in input order; a string is first cut at its commas.
      Nothing is dropped, so "a,,b" keeps an empty middle entry. */
  function ToTrimmedList(input: ListInput): (r: seq<string>)
    ensures forall i :: 0 <= i < |r| ==> IsTrimmed(r[i])
    ensures input.AsArray? ==>
              |r| == |input.items| && forall i :: 0 <= i < |r| ==> r[i] == Trim(input.items[i])
    ensures input.AsText? ==>
              && |r| == |Split(input.text, ',')|
              && forall i :: 0 <= i < |r| ==> r[i] == Trim(Split(input.text, ',')[i]) && ',' !in r[i]
  {
    match input
    case AsArray(items) => TrimEach(items)
    case AsText(text) =>
      var pieces := Split(text, ',');
      TrimEachKeepsAbsent(pieces, ',');
      TrimEach(pieces)
  }

  /** A list shown in an edit form as its entries joined with "," plus any
      blank padding (", " for instance) comes back from the comma-string branch
      as the same list, in the same order. */
  lemma CommaTextRoundTrip(parts: seq<string>, gap: string)
    requires |parts| >= 1 && IsBlank(gap)
    requires forall i :: 0 <= i < |parts| ==> ',' !in parts[i] && IsTrimmed(parts[i])
    ensures ToTrimmedList(AsText(Join(parts, [','] + gap))) == parts
  {
    SplitTrimJoin(parts, ',', gap);
  }

  /** Re-submitting an already trimmed array changes nothing. */
  lemma ArrayInputIdempotent(items: seq<string>)
    ensures ToTrimmedList(AsArray(ToTrimmedList(AsArray(items)))) == ToTrimmedList(AsArray(items))
  {
    forall i | 0 <= i < |items| ensures Trim(Trim(items[i])) == Trim(items[i]) {
      TrimIdempotent(items[i]);
    }
  }
}
