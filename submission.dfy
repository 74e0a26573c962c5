/**
 * The submit handler's pure part: the identity prefill, the four field
 * checks and the payload handed to the host bridge.
 */
module Submission {
  import opened Options
  import opened Text
  import opened DateValidation
  import opened Photos

  /** The host's identity context `initDataUnsafe.user`, with its optional fields. */
  datatype User = User(id: int, username: Option<string>, firstName: Option<string>, lastName: Option<string>)

  /** JavaScript truthiness of an optional string: present and not empty. */
  predicate Truthy(s: Option<string>) {
    s.Some? && s.value != ""
  }

  /** The value the prefill writes into the name input, or the input's current value when it writes nothing. */
  function PrefilledName(user: Option<User>, current: string): string {
    if user.Some? && Truthy(user.value.firstName) then
      user.value.firstName.value + (if Truthy(user.value.lastName) then " " + user.value.lastName.value else "")
    else current
  }

  /** The value the prefill writes into the contact input, or the input's current value. */
  function PrefilledContact(user: Option<User>, current: string): string {
    if user.Some? && Truthy(user.value.username) then "@" + user.value.username.value else current
  }

  /**
   * The prefilled name starts with the first name; it is exactly the first
   * name when there is no last name, and otherwise ends with the last name
   * after one blank. The contact is the user name behind an `@`, so the user
   * name can be read back from it. A missing first name or user name leaves
   * the input's value alone.
   */
  lemma PrefillReadsBack(u: User, name: string, contact: string)
    ensures Truthy(u.firstName) ==> StartsWith(PrefilledName(Some(u), name), u.firstName.value)
    ensures Truthy(u.firstName) && Truthy(u.lastName) ==>
              var full := PrefilledName(Some(u), name);
              var last := u.lastName.value;
              |full| == |u.firstName.value| + 1 + |last| &&
              full[|u.firstName.value|] == ' ' && full[|full| - |last|..] == last
    ensures Truthy(u.firstName) && !Truthy(u.lastName) ==> PrefilledName(Some(u), name) == u.firstName.value
    ensures !Truthy(u.firstName) ==> PrefilledName(Some(u), name) == name
    ensures Truthy(u.username) ==>
              var c := PrefilledContact(Some(u), contact);
              c != [] && c[0] == '@' && c[1..] == u.username.value
    ensures !Truthy(u.username) ==> PrefilledContact(Some(u), contact) == contact
  {
    if Truthy(u.firstName) {
      var first := u.firstName.value;
      var full := PrefilledName(Some(u), name);
      if Truthy(u.lastName) {
        assert full == first + (" " + u.lastName.value);
        assert full[|full| - |u.lastName.value|..] == u.lastName.value;
      } else {
        assert full == first;
      }
      assert full[..|first|] == first;
    }
    if Truthy(u.username) {
      assert ("@" + u.username.value)[1..] == u.username.value;
    }
  }

  /** The raw values of the form's inputs when the form is submitted. */
  datatype Inputs = Inputs(name: string, contact: string, description: string, source: string)

  /** The outcome of each of the four checks; `true` means the field passed. */
  datatype Checks = Checks(name: bool, contact: bool, description: bool, dates: bool)

  /** The minimum length of the trimmed description. */
  const MinDescriptionLength: nat := 10

  /**
   * The four checks of the submit handler, each on its own field: the
   * trimmed name and contact must not be empty, the trimmed description
   * must be at least ten characters long, and a date must be selected.
   */
  function CheckForm(inputs: Inputs, dates: seq<string>): (c: Checks)
    ensures c.name <==> !AllWhiteSpace(inputs.name)
    ensures c.contact <==> !AllWhiteSpace(inputs.contact)
    ensures c.description <==> |Trim(inputs.description)| >= MinDescriptionLength
    ensures c.dates <==> |dates| > 0
  {
    var description := Trim(inputs.description);
    Checks(Trim(inputs.name) != "", Trim(inputs.contact) != "",
           !(description == "" || |description| < MinDescriptionLength), |dates| != 0)
  }

  /** The form is sent only when every check passes. */
  predicate Passes(c: Checks) {
    c.name && c.contact && c.description && c.dates
  }

  /** Each check reads only its own field: changing one input can change only that input's check. */
  lemma ChecksAreIndependent(a: Inputs, b: Inputs, da: seq<string>, db: seq<string>)
    ensures a.name == b.name ==> CheckForm(a, da).name == CheckForm(b, db).name
    ensures a.contact == b.contact ==> CheckForm(a, da).contact == CheckForm(b, db).contact
    ensures a.description == b.description ==> CheckForm(a, da).description == CheckForm(b, db).description
    ensures |da| == |db| ==> CheckForm(a, da).dates == CheckForm(b, db).dates
  {
  }

  /** `formData`: the trimmed name, contact and description, the joined dates, the untrimmed source. */
  datatype Payload = Payload(name: string, contact: string, description: string, dates: string,
                             source: string, photos: seq<Photo>,
                             userId: Option<int>, username: Option<string>)

  /** The message handed to `sendData` (its JSON serialisation is not modelled). */
  datatype BridgeMessage = BridgeMessage(action: string, data: Payload)

  const CreateLead: string := "create_lead"

  const DateSeparator: string := ", "

  /**
   * The payload: the name, contact and description are their inputs
   * trimmed, so each is empty exactly when its input is all white space, and
   * otherwise starts and ends with a character that is not; the dates are
   * joined with `", "` (which PayloadDatesDetermineList proves lossless);
   * the source and the photos are carried as they are.
   */
  function BuildPayload(inputs: Inputs, dates: seq<string>, photos: seq<Photo>, user: Option<User>): (p: Payload)
    ensures p.name == Trim(inputs.name) && p.contact == Trim(inputs.contact)
    ensures p.description == Trim(inputs.description)
    ensures p.dates == Join(dates, DateSeparator)
    ensures p.name == "" <==> AllWhiteSpace(inputs.name)
    ensures p.contact == "" <==> AllWhiteSpace(inputs.contact)
    ensures p.description == "" <==> AllWhiteSpace(inputs.description)
    ensures p.name != "" ==> !IsWhiteSpace(p.name[0]) && !IsWhiteSpace(p.name[|p.name| - 1])
    ensures p.contact != "" ==> !IsWhiteSpace(p.contact[0]) && !IsWhiteSpace(p.contact[|p.contact| - 1])
    ensures p.description != "" ==>
              !IsWhiteSpace(p.description[0]) && !IsWhiteSpace(p.description[|p.description| - 1])
    ensures dates == [] ==> p.dates == ""
    ensures |dates| == 1 ==> p.dates == dates[0]
    ensures p.source == inputs.source && p.photos == photos
    ensures p.userId == (if user.Some? then Some(user.value.id) else None)
    ensures p.username == (if user.Some? then user.value.username else None)
  {
    Payload(Trim(inputs.name), Trim(inputs.contact), Trim(inputs.description), Join(dates, DateSeparator),
            inputs.source, photos,
            if user.Some? then Some(user.value.id) else None,
            if user.Some? then user.value.username else None)
  }

  /** Every stored date is a valid date string. */
  predicate AllValidDates(dates: seq<string>) {
    forall i :: 0 <= i < |dates| ==> IsValidDate(dates[i])
  }

  /**
   * The joined `dates` field loses nothing: a valid date contains neither a
   * comma nor a blank, so two valid date lists whose payloads carry the same
   * string are the same list, in the same order.
   */
  lemma PayloadDatesDetermineList(inputs: Inputs, photos: seq<Photo>, user: Option<User>,
                                  xs: seq<string>, ys: seq<string>)
    requires AllValidDates(xs) && AllValidDates(ys)
    requires BuildPayload(inputs, xs, photos, user).dates == BuildPayload(inputs, ys, photos, user).dates
    ensures xs == ys
  {
    ValidDatesJoinInjective(xs, ys);
  }

  /** Two lists of valid dates with the same `", "` join are the same list. */
  lemma ValidDatesJoinInjective(xs: seq<string>, ys: seq<string>)
    requires AllValidDates(xs) && AllValidDates(ys)
    requires Join(xs, DateSeparator) == Join(ys, DateSeparator)
    ensures xs == ys
  {
    forall i | 0 <= i < |xs| ensures xs[i] != [] && ',' !in xs[i] {
      ValidDateCharacters(xs[i]);
    }
    forall i | 0 <= i < |ys| ensures ys[i] != [] && ',' !in ys[i] {
      ValidDateCharacters(ys[i]);
    }
    JoinInjective(xs, ys, DateSeparator);
  }

  /** A submission that fails only on the name: every other check passes. */
  lemma MissingNameExample(source: string)
    ensures var c := CheckForm(Inputs("", "Bob", "a tattoo idea here", source), ["01.01.2025"]);
      !Passes(c) && !c.name && c.contact && c.description && c.dates
  {
    assert |Trim("a tattoo idea here")| >= MinDescriptionLength by {
      assert !IsWhiteSpace("a tattoo idea here"[0]);
      assert !IsWhiteSpace("a tattoo idea here"[17]);
      TrimUnique("a tattoo idea here", "", "a tattoo idea here", "");
    }
    assert !AllWhiteSpace("Bob") by { assert !IsWhiteSpace("Bob"[0]); }
  }

  /** A complete submission passes, and its payload carries the single date as its `dates` string. */
  lemma CompleteSubmissionExample(source: string, photos: seq<Photo>, user: Option<User>)
    ensures var inputs := Inputs("Alice", "@alice", "floral sleeve design", source);
      Passes(CheckForm(inputs, ["01.01.2025"])) &&
      BuildPayload(inputs, ["01.01.2025"], photos, user).dates == "01.01.2025"
  {
    assert |Trim("floral sleeve design")| >= MinDescriptionLength by {
      assert !IsWhiteSpace("floral sleeve design"[0]);
      assert !IsWhiteSpace("floral sleeve design"[19]);
      TrimUnique("floral sleeve design", "", "floral sleeve design", "");
    }
    assert !AllWhiteSpace("Alice") by { assert !IsWhiteSpace("Alice"[0]); }
    assert !AllWhiteSpace("@alice") by { assert !IsWhiteSpace("@alice"[0]); }
  }
}
