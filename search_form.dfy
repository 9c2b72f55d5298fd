/** The search page's client-side logic (public/js/search.js): merging a tag
    picked from the autocomplete list into the tags input, and the submit
    handler's two checks, at least one criterion and a minimum rating
    between 0 and 5. */
module SearchForm {
  import opened Text
  import opened Js
  import opened Validation

  /** `.filter(t => t)` over strings: the non-empty ones, in order. */
  function NonEmpty(parts: seq<string>): (r: seq<string>)
    ensures |r| <= |parts|
    ensures forall i :: 0 <= i < |r| ==> r[i] != [] && r[i] in parts
  {
    if parts == [] then []
    else (if parts[0] != [] then [parts[0]] else []) + NonEmpty(parts[1..])
  }

  /** The filter keeps exactly the non-empty members. */
  lemma {:induction false} NonEmptyMembers(parts: seq<string>, x: string)
    ensures x in NonEmpty(parts) <==> x in parts && x != []
  {
    if parts != [] {
      NonEmptyMembers(parts[1..], x);
      assert parts == [parts[0]] + parts[1..];
    }
  }

  lemma {:induction false} NonEmptyAll(parts: seq<string>)
    requires forall i :: 0 <= i < |parts| ==> parts[i] != []
    ensures NonEmpty(parts) == parts
  {
    if parts != [] {
      NonEmptyAll(parts[1..]);
    }
  }

  lemma {:induction false} NonEmptyAppend(a: seq<string>, b: seq<string>)
    ensures NonEmpty(a + b) == NonEmpty(a) + NonEmpty(b)
  {
    if a != [] {
      assert (a + b)[1..] == a[1..] + b;
      NonEmptyAppend(a[1..], b);
    } else {
      assert a + b == b;
    }
  }

  /** The tags in the input's value: `split(',')`, each piece trimmed, the
      empty ones dropped. Every tag is non-empty, trimmed and comma-free. */
  function ParseTags(value: string): (r: seq<string>)
    ensures forall i :: 0 <= i < |r| ==> r[i] != [] && IsTrimmed(r[i]) && ',' !in r[i]
  {
    var pieces := Split(value, ',');
    TrimEachKeepsAbsent(pieces, ',');
    NonEmpty(TrimEach(pieces))
  }

  /** A tag as the tags input can hold it: no comma, no surrounding
      whitespace. */
  predicate IsPlainTag(tag: string)
  {
    ',' !in tag && IsTrimmed(tag)
  }

  lemma ParseOf(value: string, trimmed: seq<string>)
    requires TrimEach(Split(value, ',')) == trimmed
    ensures ParseTags(value) == NonEmpty(trimmed)
  {
  }

  /** `", "` is a comma followed by blank padding. */
  lemma CommaGap() returns (gap: string)
    ensures [','] + gap == ", " && IsBlank(gap) && !IsSpace(',')
  {
    gap := " ";
  }

  lemma TrimmedPiecesOfJoined(tags: seq<string>)
    requires |tags| >= 1
    requires forall i :: 0 <= i < |tags| ==> IsPlainTag(tags[i])
    ensures TrimEach(Split(Join(tags, ", "), ',')) == tags
  {
    var gap := CommaGap();
    SplitTrimJoin(tags, ',', gap);
  }

  /** Joining plain tags with ", " and reading them back loses only the
      empty ones. */
  lemma ParseJoined(tags: seq<string>)
    requires forall i :: 0 <= i < |tags| ==> IsPlainTag(tags[i])
    ensures ParseTags(Join(tags, ", ")) == NonEmpty(tags)
  {
    if tags == [] {
      assert Split([], ',') == [[]];
      assert TrimEach([[]]) == [[]];
    } else {
      TrimmedPiecesOfJoined(tags);
      ParseOf(Join(tags, ", "), tags);
    }
  }

  /** The tag list the input reads back after its value was written from a
      list of tags: the same list when every tag is non-empty and plain. */
  lemma ParseJoinedTags(tags: seq<string>)
    requires forall i :: 0 <= i < |tags| ==> tags[i] != [] && IsPlainTag(tags[i])
    ensures ParseTags(Join(tags, ", ")) == tags
  {
    ParseJoined(tags);
    NonEmptyAll(tags);
  }

  /** The input's value after `select` picks `tag`: unchanged when the tag
      is already listed, otherwise the listed tags and the new one joined
      with ", ". */
  function AfterSelect(value: string, tag: string): string
  {
    var currentTags := ParseTags(value);
    if tag in currentTags then value else Join(currentTags + [tag], ", ")
  }

  /** The tags input, whose value `select` rewrites in place. */
  class TagsInput {
    var value: string

    constructor (value: string)
      ensures this.value == value
    {
      this.value := value;
    }

    /** The autocomplete `select` handler for the picked suggestion `tag`. */
    method Select(tag: string)
      modifies this
      ensures value == AfterSelect(old(value), tag)
    {
      var currentTags := ParseTags(Sanitize(value));
      if tag !in currentTags {
        currentTags := currentTags + [tag];
        value := Join(currentTags, ", ");
      }
    }
  }

  /** Selecting a plain tag lists it once at the end when it was absent and
      leaves the list as it was when present. */
  lemma SelectParsed(value: string, tag: string)
    requires IsPlainTag(tag)
    ensures ParseTags(AfterSelect(value, tag)) ==
              if tag in ParseTags(value) || tag == [] then ParseTags(value) else ParseTags(value) + [tag]
  {
    var current := ParseTags(value);
    if tag !in current {
      ParseJoined(current + [tag]);
      NonEmptyAll(current);
      NonEmptyAppend(current, [tag]);
      assert [tag][1..] == [];
    }
  }

  /** After a non-empty plain tag is selected it is among the input's tags,
      and every tag listed before is still listed. */
  lemma SelectLists(value: string, tag: string)
    requires tag != [] && IsPlainTag(tag)
    ensures tag in ParseTags(AfterSelect(value, tag))
    ensures forall t :: t in ParseTags(value) ==> t in ParseTags(AfterSelect(value, tag))
  {
    SelectParsed(value, tag);
  }

  /** Selecting the same plain tag twice leaves the value that selecting it
      once gives. */
  lemma SelectTwice(value: string, tag: string)
    requires IsPlainTag(tag)
    ensures AfterSelect(AfterSelect(value, tag), tag) == AfterSelect(value, tag)
  {
    var current := ParseTags(value);
    SelectParsed(value, tag);
    if tag !in current && tag == [] {
      assert ParseTags(AfterSelect(value, tag)) == current;
    }
  }

  /** The six search inputs. */
  datatype SearchFields = SearchFields(
    name: string,
    placeType: string,
    city: string,
    tags: string,
    minRating: string,
    sortBy: string)

  /** What the submit handler does: block the submission showing one of its
      two messages, or let it go with the error box hidden. */
  datatype Outcome = NoCriterion | BadRating | Sent

  /** The text the error box shows for a blocked submission. */
  function OutcomeMessage(o: Outcome): string
    requires o != Sent
  {
    if o == NoCriterion then "Please provide at least one search criterion"
    else "Minimum rating must be a number between 0 and 5"
  }

  /** Every input is empty: the five text inputs after trimming, the sort
      choice as selected. */
  predicate NoCriteria(f: SearchFields)
  {
    Trim(f.name) == [] && Trim(f.placeType) == [] && Trim(f.city) == [] && Trim(f.tags) == []
    && Trim(f.minRating) == [] && f.sortBy == []
  }

  /** `isNaN(n) || n < 0 || n > 5` holds exactly for the numbers outside
      the closed range from 0 to 5. */
  lemma OutsideRange(n: Num)
    ensures (n.NaN? || Below(n, 0.0) || Above(n, 5.0)) <==> !Within(n, Some(0.0), Some(5.0))
  {
  }

  /** The submit handler. `toNumber` is JavaScript's conversion of a string
      to a number, which `isNaN` and the comparisons with 0 and 5 apply to
      the rating; its parsing rules are not part of this model. */
  function Submit(f: SearchFields, toNumber: string -> Num): (r: Outcome)
    ensures r == NoCriterion <==> NoCriteria(f)
    ensures r == BadRating <==>
              !NoCriteria(f) && Trim(f.minRating) != [] && !Within(toNumber(Trim(f.minRating)), Some(0.0), Some(5.0))
  {
    var name := Sanitize(Trim(f.name));
    var placeType := Sanitize(Trim(f.placeType));
    var city := Sanitize(Trim(f.city));
    var tags := Sanitize(Trim(f.tags));
    var minRating := Sanitize(Trim(f.minRating));
    var sortBy := Sanitize(f.sortBy);
    if name == [] && placeType == [] && city == [] && tags == [] && minRating == [] && sortBy == [] then
      NoCriterion
    else
      var n := toNumber(minRating);
      OutsideRange(n);
      if minRating != [] && (n.NaN? || Below(n, 0.0) || Above(n, 5.0)) then BadRating
      else Sent
  }

  /** With some criterion given, a non-empty rating passes the page's check
      exactly when `checkNumber` accepts its numeric value with bounds 0 and
      5; both bounds themselves pass. */
  lemma RatingAgreesWithCheckNumber(f: SearchFields, toNumber: string -> Num)
    requires !NoCriteria(f) && Trim(f.minRating) != []
    ensures Submit(f, toNumber) == Sent <==>
              CheckNumber(Number(toNumber(Trim(f.minRating))), "minRating", Some(0.0), Some(5.0)).Ok?
    ensures toNumber(Trim(f.minRating)) in {Finite(0.0), Finite(5.0)} ==> Submit(f, toNumber) == Sent
  {
  }
}
