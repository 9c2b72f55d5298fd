/** The place edit form's client-side check (public/js/places.js): every
    required field must be non-blank, and a tags field, when filled in, may
    not hold a blank comma-separated entry. Each failed rule adds its
    message, in field order; the form is sent only when none failed. */
module PlaceForm {
  import opened Text
  import opened Js

  /** The raw values of the form's inputs. */
  datatype FormFields = FormFields(
    name: string,
    placeType: string,
    servicesOffered: string,
    address: string,
    city: string,
    description: string,
    tags: string)

  /** The tag rule on the trimmed field: a non-empty value is rejected when
      one of its comma-separated entries is blank. */
  predicate TagsRejected(tags: string)
  {
    tags != [] && exists k :: 0 <= k < |Split(tags, ',')| && Trim(Split(tags, ',')[k]) == []
  }

  /** The message of each rule, the rules numbered in the order they are
      tested. */
  function RuleMessage(k: nat): string
    requires k < 7
  {
    match k
    case 0 => "Name is required"
    case 1 => "Type is required"
    case 2 => "Services Offered is required"
    case 3 => "Address is required"
    case 4 => "City is required"
    case 5 => "Description is required"
    case _ => "Tags must be non-empty if provided"
  }

  /** For each rule, in order, whether it fails on the form: a required
      field that is empty after trimming, or a rejected tags value. */
  function Failures(form: FormFields): (fs: seq<bool>)
    ensures |fs| == 7
  {
    [Trim(form.name) == [], Trim(form.placeType) == [], Trim(form.servicesOffered) == [],
     Trim(form.address) == [], Trim(form.city) == [], Trim(form.description) == [],
     TagsRejected(Trim(form.tags))]
  }

  /** The indices among the first n of the rules that fail, in increasing
      order. */
  function FailedRules(fs: seq<bool>, n: nat): (rules: seq<nat>)
    requires n <= |fs|
    ensures forall i :: 0 <= i < |rules| ==> rules[i] < n
    ensures forall i, j :: 0 <= i < j < |rules| ==> rules[i] < rules[j]
    ensures forall k :: 0 <= k < n ==> (k in rules <==> fs[k])
  {
    if n == 0 then []
    else FailedRules(fs, n - 1) + (if fs[n - 1] then [n - 1] else [])
  }

  /** The messages of the given rules, in the same order. */
  function MessagesOf(rules: seq<nat>): (r: seq<string>)
    requires forall i :: 0 <= i < |rules| ==> rules[i] < 7
    ensures |r| == |rules| && forall i :: 0 <= i < |rules| ==> r[i] == RuleMessage(rules[i])
  {
    seq(|rules|, i requires 0 <= i < |rules| => RuleMessage(rules[i]))
  }

  /** The messages of the failing rules among the first n, pushed one rule
      at a time as `validateForm` does. */
  function ErrorsUpTo(fs: seq<bool>, n: nat): seq<string>
    requires n <= |fs| && n <= 7
  {
    if n == 0 then [] else ErrorsUpTo(fs, n - 1) + (if fs[n - 1] then [RuleMessage(n - 1)] else [])
  }

  /** One more rule's push extends the list of the rules before it. */
  lemma PushStep(fs: seq<bool>, n: nat, before: seq<string>)
    requires n < |fs| && n < 7 && before == ErrorsUpTo(fs, n)
    ensures ErrorsUpTo(fs, n + 1) == before + (if fs[n] then [RuleMessage(n)] else [])
  {
  }

  /** The pushes of `validateForm`, one rule at a time: `if (failed)
      errors.push(message)` for each rule in order. */
  method CollectErrors(fs: seq<bool>) returns (errors: seq<string>)
    requires |fs| == 7
    ensures errors == ErrorsUpTo(fs, 7)
  {
    errors := [];
    PushStep(fs, 0, errors);
    if fs[0] { errors := errors + [RuleMessage(0)]; }
    PushStep(fs, 1, errors);
    if fs[1] { errors := errors + [RuleMessage(1)]; }
    PushStep(fs, 2, errors);
    if fs[2] { errors := errors + [RuleMessage(2)]; }
    PushStep(fs, 3, errors);
    if fs[3] { errors := errors + [RuleMessage(3)]; }
    PushStep(fs, 4, errors);
    if fs[4] { errors := errors + [RuleMessage(4)]; }
    PushStep(fs, 5, errors);
    if fs[5] { errors := errors + [RuleMessage(5)]; }
    PushStep(fs, 6, errors);
    if fs[6] { errors := errors + [RuleMessage(6)]; }
  }

  /** Pushing rule by rule yields the messages of the failed rules, in rule
      order. */
  lemma {:induction false} ErrorsUpToRules(fs: seq<bool>, n: nat)
    requires n <= |fs| && n <= 7
    ensures ErrorsUpTo(fs, n) == MessagesOf(FailedRules(fs, n))
  {
    if n > 0 {
      ErrorsUpToRules(fs, n - 1);
    }
  }

  /** The error list of a form: the message of every failing rule, in rule
      order. */
  function FormErrors(form: FormFields): seq<string>
  {
    ErrorsUpTo(Failures(form), 7)
  }

  /** Each rule's message is listed exactly when that rule fails, so a
      required field's message depends on that field alone. */
  lemma FormErrorsListFailures(form: FormFields, k: nat)
    requires k < 7
    ensures RuleMessage(k) in FormErrors(form) <==> Failures(form)[k]
  {
    var rules := FailedRules(Failures(form), 7);
    ErrorsUpToRules(Failures(form), 7);
    if RuleMessage(k) in FormErrors(form) {
      var i :| 0 <= i < |rules| && FormErrors(form)[i] == RuleMessage(k);
      MessagesDistinct(rules[i], k);
    }
    if Failures(form)[k] {
      var i :| 0 <= i < |rules| && rules[i] == k;
      assert FormErrors(form)[i] == RuleMessage(k);
    }
  }

  lemma MessagesDistinct(a: nat, b: nat)
    requires a < 7 && b < 7 && RuleMessage(a) == RuleMessage(b)
    ensures a == b
  {
  }

  /** No errors exactly when no rule fails. */
  lemma FormErrorsEmpty(form: FormFields)
    ensures FormErrors(form) == [] <==> forall k :: 0 <= k < 7 ==> !Failures(form)[k]
  {
    var rules := FailedRules(Failures(form), 7);
    ErrorsUpToRules(Failures(form), 7);
    if rules != [] {
      assert rules[0] in rules;
    }
  }

  /** `validateForm`: collects one message per failed rule, in rule order; on
      any failure the error text is "Form errors: " and the messages joined
      with ", ", and the form is not sent. */
  method ValidateForm(form: FormFields) returns (valid: bool, errors: seq<string>, errorText: Option<string>)
    ensures errors == FormErrors(form)
    ensures valid <==> errors == []
    ensures errorText == if valid then None else Some("Form errors: " + Join(errors, ", "))
  {
    var name := Sanitize(Trim(form.name));
    var placeType := Sanitize(Trim(form.placeType));
    var servicesOffered := Sanitize(Trim(form.servicesOffered));
    var address := Sanitize(Trim(form.address));
    var city := Sanitize(Trim(form.city));
    var description := Sanitize(Trim(form.description));
    var tags := Sanitize(Trim(form.tags));
    var tagsRejected := TagsRejected(tags);
    var failures := [name == [], placeType == [], servicesOffered == [], address == [], city == [],
                     description == [], tagsRejected];
    assert failures == Failures(form);
    errors := CollectErrors(failures);
    if |errors| > 0 {
      return false, errors, Some("Form errors: " + Join(errors, ", "));
    }
    return true, errors, None;
  }

  /** A tags value built from comma-free entries one of which is blank is
      rejected: "yoga,,spa" and "yoga," are two such values. */
  lemma BlankEntryRejected(entries: seq<string>, k: nat)
    requires |entries| >= 1 && k < |entries| && IsBlank(entries[k])
    requires forall i :: 0 <= i < |entries| ==> ',' !in entries[i]
    requires Join(entries, [',']) != []
    ensures TagsRejected(Join(entries, [',']))
  {
    SplitJoin(entries, ',');
  }

  /** A tags value built from comma-free entries none of which is blank is
      accepted. */
  lemma NonBlankEntriesAccepted(entries: seq<string>)
    requires |entries| >= 1
    requires forall i :: 0 <= i < |entries| ==> ',' !in entries[i] && !IsBlank(entries[i])
    ensures !TagsRejected(Join(entries, [',']))
  {
    SplitJoin(entries, ',');
  }

  /** "yoga,,spa" holds an empty entry between its commas. The string is a
      parameter pinned by `requires` rather than a literal in the statement,
      so that the recursive `Split` and `Trim` are not unrolled over the
      literal's characters. */
  lemma EmptyEntryExample(tags: string)
    requires tags == "yoga,,spa"
    ensures TagsRejected(Trim(tags))
  {
    var entries := ["yoga", "", "spa"];
    assert Join(entries, [',']) == tags;
    TrimTrimmed(tags);
    BlankEntryRejected(entries, 1);
  }

  /** "yoga, " is trimmed to "yoga,", whose last entry is empty. The string is a
      parameter pinned by `requires` rather than a literal in the statement, so that the
      recursive `Split` and `Trim` are not unrolled over the literal's
      characters. */
  lemma TrailingCommaExample(tags: string)
    requires tags == "yoga, "
    ensures TagsRejected(Trim(tags))
  {
    var entries := ["yoga", ""];
    var joined := Join(entries, [',']);
    assert joined == "yoga,";
    assert tags == joined + " ";
    assert IsBlank(" ");
    assert Trim(joined + " ") == joined by {
      TrimPadding([], joined, " ");
      assert [] + joined + " " == joined + " ";
    }
    BlankEntryRejected(entries, 1);
  }

  /** "yoga, spa" has two non-blank entries. The string is a parameter
      pinned by `requires` rather than a literal in the statement, so that the
      recursive `Split` and `Trim` are not unrolled over the literal's
      characters. */
  lemma TwoTagsExample(tags: string)
    requires tags == "yoga, spa"
    ensures !TagsRejected(Trim(tags))
  {
    var entries := ["yoga", " spa"];
    assert Join(entries, [',']) == tags;
    TrimTrimmed(tags);
    NonBlankEntriesAccepted(entries);
  }
}
