/**
 * The booking form's state: the selected dates, the uploaded photos, the
 * input values, the inline error slots, the three mutually exclusive views
 * (form, loading indicator, success message), the armed timers and the
 * messages handed to the host bridge. Each method is one event handler.
 */
module BookingForm {
  import opened Options
  import opened Text
  import opened Splice
  import opened DateValidation
  import opened Photos
  import opened Submission

  /** The texts the handlers put into the error slots. */
  datatype ErrorMessage = DateFormatHint | NameRequired | ContactRequired | DescriptionTooShort | DateRequired

  /** An inline error element: whether it is displayed, and its text. */
  datatype ErrorSlot = ErrorSlot(visible: bool, text: Option<ErrorMessage>)

  /** `showError(id, message)`: set the text and display the element. */
  function Shown(m: ErrorMessage): ErrorSlot {
    ErrorSlot(true, Some(m))
  }

  /** `hideError(id)`: stop displaying the element; its text stays. */
  function Hidden(slot: ErrorSlot): ErrorSlot {
    slot.(visible := false)
  }

  datatype AddOutcome = Added | AlreadySelected | Rejected

  /** Which view the three display flags show; Mixed is any other combination. */
  datatype View = Editing | Submitting | Succeeded | Mixed

  /** The date list's invariant: duplicate-free, and every entry a valid date. */
  predicate ValidDateList(dates: seq<string>) {
    NoDuplicates(dates) && AllValidDates(dates)
  }

  /** The checks read off the payload, as the submit handler performs them. */
  lemma PayloadChecks(inputs: Inputs, dates: seq<string>, photos: seq<Photo>, user: Option<User>)
    ensures var p := BuildPayload(inputs, dates, photos, user);
      CheckForm(inputs, dates) ==
        Checks(p.name != "", p.contact != "",
               !(p.description == "" || |p.description| < MinDescriptionLength), |dates| != 0)
  {
  }

  class Form {
    var nameInput: string
    var contactInput: string
    var descriptionInput: string
    var sourceInput: string
    var dateInput: string

    var dates: seq<string>
    var photos: seq<Photo>

    var nameError: ErrorSlot
    var contactError: ErrorSlot
    var descriptionError: ErrorSlot
    var datesError: ErrorSlot

    var formShown: bool
    var loadingShown: bool
    var successShown: bool

    /** Armed 2-second timers that will show the success message. */
    var successTimers: nat
    /** Armed 3-second timers that will ask the host to close the mini-app. */
    var closeTimers: nat
    var closeRequested: bool

    /** Every message `sendData` accepted, oldest first. */
    var sent: seq<BridgeMessage>

    const user: Option<User>

    ghost predicate Valid()
      reads this`dates, this`photos
    {
      ValidDateList(dates) && |photos| <= MaxPhotos
    }

    function CurrentView(): View
      reads this`formShown, this`loadingShown, this`successShown
    {
      if formShown && !loadingShown && !successShown then Editing
      else if !formShown && loadingShown && !successShown then Submitting
      else if !formShown && !loadingShown && successShown then Succeeded
      else Mixed
    }

    function CurrentInputs(): Inputs
      reads this`nameInput, this`contactInput, this`descriptionInput, this`sourceInput
    {
      Inputs(nameInput, contactInput, descriptionInput, sourceInput)
    }

    /** The payload the submit handler builds from the current state. */
    function CurrentPayload(): Payload
      reads this`nameInput, this`contactInput, this`descriptionInput, this`sourceInput
      reads this`dates, this`photos
    {
      BuildPayload(CurrentInputs(), dates, photos, user)
    }

    /**
     * Page load: empty lists, hidden errors, the form displayed, and the name
     * and contact inputs prefilled from the host's identity context.
     */
    constructor (user: Option<User>, source: string)
      ensures Valid() && CurrentView() == Editing
      ensures this.user == user
      ensures dates == [] && photos == [] && sent == [] && dateInput == ""
      ensures nameInput == PrefilledName(user, "") && contactInput == PrefilledContact(user, "")
      ensures descriptionInput == "" && sourceInput == source
      ensures !nameError.visible && !contactError.visible && !descriptionError.visible && !datesError.visible
      ensures successTimers == 0 && closeTimers == 0 && !closeRequested
    {
      this.user := user;
      nameInput := PrefilledName(user, "");
      contactInput := PrefilledContact(user, "");
      descriptionInput, sourceInput, dateInput := "", source, "";
      dates, photos, sent := [], [], [];
      nameError, contactError := ErrorSlot(false, None), ErrorSlot(false, None);
      descriptionError, datesError := ErrorSlot(false, None), ErrorSlot(false, None);
      formShown, loadingShown, successShown := true, false, false;
      successTimers, closeTimers, closeRequested := 0, 0, false;
    }

    /**
     * `addDate`: a valid new date is appended and the input cleared; a valid
     * date already selected only clears the input; anything else leaves the
     * list and the input alone and displays the format hint.
     */
    method AddDate() returns (outcome: AddOutcome)
      requires Valid()
      modifies this`dates, this`dateInput, this`datesError
      ensures Valid()
      ensures var date := Trim(old(dateInput));
        && (outcome == Rejected <==> !IsValidDate(date))
        && (outcome == AlreadySelected <==> IsValidDate(date) && date in old(dates))
        && (outcome == Added <==> IsValidDate(date) && date !in old(dates))
        && dates == (if outcome == Added then old(dates) + [date] else old(dates))
      ensures outcome == Rejected ==> dateInput == old(dateInput) && datesError == Shown(DateFormatHint)
      ensures outcome != Rejected ==> dateInput == "" && datesError == Hidden(old(datesError))
    {
      var date := Trim(dateInput);
      if date != "" && IsValidDate(date) {
        if date !in dates {
          dates := dates + [date];
          outcome := Added;
        } else {
          outcome := AlreadySelected;
        }
        dateInput := "";
        datesError := Hidden(datesError);
      } else {
        datesError := Shown(DateFormatHint);
        outcome := Rejected;
      }
    }

    /** `removeDate(index)`: `selectedDates.splice(index, 1)`. */
    method RemoveDate(index: int)
      requires Valid()
      modifies this`dates
      ensures Valid()
      ensures dates == RemoveAt(old(dates), index)
      ensures 0 <= index < |old(dates)| ==> |dates| == |old(dates)| - 1 && old(dates)[index] !in dates
      ensures index >= |old(dates)| ==> dates == old(dates)
    {
      RemoveAtKeeps(dates, index);
      if 0 <= index < |dates| {
        RemoveAtRemoves(dates, index);
      }
      dates := RemoveAt(dates, index);
    }

    /** `removePhoto(index)`: `uploadedPhotos.splice(index, 1)`. */
    method RemovePhoto(index: int)
      requires Valid()
      modifies this`photos
      ensures Valid()
      ensures photos == RemoveAt(old(photos), index)
      ensures 0 <= index < |old(photos)| ==> |photos| == |old(photos)| - 1
      ensures index >= |old(photos)| ==> photos == old(photos)
    {
      photos := RemoveAt(photos, index);
    }

    /**
     * `handleFiles`: a batch that would take the list past MaxPhotos, counting
     * every file of the batch, is refused whole; otherwise each image file's
     * photo is appended in batch order and every other file is skipped. The
     * reads are taken to finish before the next event. A refused batch calls
     * `showError` with the message as its only argument, so no element is
     * found and the handler throws before anything is displayed: no error
     * slot changes.
     */
    method HandleFiles(files: seq<File>) returns (accepted: bool)
      requires Valid()
      modifies this`photos
      ensures Valid()
      ensures accepted <==> |old(photos)| + |files| <= MaxPhotos
      ensures photos == if accepted then old(photos) + ImagePhotos(files) else old(photos)
      ensures |photos| == |old(photos)| + (if accepted then ImageCount(files) else 0)
    {
      if |photos| + |files| > MaxPhotos {
        return false;
      }
      var i := 0;
      while i < |files|
        invariant 0 <= i <= |files|
        invariant photos == old(photos) + ImagePhotos(files[..i])
      {
        assert files[..i + 1][..i] == files[..i];
        if IsImage(files[i]) {
          photos := photos + [PhotoOf(files[i])];
        }
        i := i + 1;
      }
      assert files[..i] == files;
      accepted := true;
    }

    /**
     * The validation steps of the submit handler: all four checks run, in
     * order, and each displays or hides only its own error slot.
     */
    method RunChecks() returns (checks: Checks)
      modifies this`nameError, this`contactError, this`descriptionError, this`datesError
      ensures checks == CheckForm(CurrentInputs(), dates)
      ensures nameError == if checks.name then Hidden(old(nameError)) else Shown(NameRequired)
      ensures contactError == if checks.contact then Hidden(old(contactError)) else Shown(ContactRequired)
      ensures descriptionError ==
                if checks.description then Hidden(old(descriptionError)) else Shown(DescriptionTooShort)
      ensures datesError == if checks.dates then Hidden(old(datesError)) else Shown(DateRequired)
    {
      var formData := BuildPayload(CurrentInputs(), dates, photos, user);
      checks := CheckForm(CurrentInputs(), dates);
      PayloadChecks(CurrentInputs(), dates, photos, user);
      if formData.name == "" {
        nameError := Shown(NameRequired);
      } else {
        nameError := Hidden(nameError);
      }
      if formData.contact == "" {
        contactError := Shown(ContactRequired);
      } else {
        contactError := Hidden(contactError);
      }
      if formData.description == "" || |formData.description| < MinDescriptionLength {
        descriptionError := Shown(DescriptionTooShort);
      } else {
        descriptionError := Hidden(descriptionError);
      }
      if |dates| == 0 {
        datesError := Shown(DateRequired);
      } else {
        datesError := Hidden(datesError);
      }
    }

    /**
     * The submit handler: the checks run; a failing form stops there. A
     * passing one hides the form, displays the loading indicator and hands
     * the message to the bridge; when `sendFails` (the bridge threw), the
     * loading indicator is hidden and the form displayed again, otherwise the
     * success timer is armed.
     */
    method Submit(sendFails: bool) returns (checks: Checks)
      modifies this`nameError, this`contactError, this`descriptionError, this`datesError
      modifies this`formShown, this`loadingShown, this`successTimers, this`sent
      ensures checks == CheckForm(CurrentInputs(), dates)
      ensures nameError == if checks.name then Hidden(old(nameError)) else Shown(NameRequired)
      ensures contactError == if checks.contact then Hidden(old(contactError)) else Shown(ContactRequired)
      ensures descriptionError ==
                if checks.description then Hidden(old(descriptionError)) else Shown(DescriptionTooShort)
      ensures datesError == if checks.dates then Hidden(old(datesError)) else Shown(DateRequired)
      ensures !Passes(checks) ==>
                sent == old(sent) && successTimers == old(successTimers) &&
                formShown == old(formShown) && loadingShown == old(loadingShown)
      ensures Passes(checks) && !sendFails ==>
                sent == old(sent) + [BridgeMessage(CreateLead, old(CurrentPayload()))] &&
                successTimers == old(successTimers) + 1 && !formShown && loadingShown
      ensures Passes(checks) && sendFails ==>
                sent == old(sent) && successTimers == old(successTimers) && formShown && !loadingShown
      ensures old(CurrentView()) == Editing ==>
                CurrentView() == if Passes(checks) && !sendFails then Submitting else Editing
    {
      var formData := CurrentPayload();
      checks := RunChecks();
      assert CurrentView() == old(CurrentView());
      if Passes(checks) {
        Send(formData, sendFails);
      }
      assert checks == CheckForm(CurrentInputs(), dates);
    }

    /**
     * The sending part of the submit handler for a form that passed: hide
     * the form, display the loading indicator, hand the message to the
     * bridge; if the bridge threw, undo the two display changes, otherwise
     * arm the success timer.
     */
    method Send(formData: Payload, sendFails: bool)
      modifies this`formShown, this`loadingShown, this`successTimers, this`sent
      ensures !sendFails ==>
                sent == old(sent) + [BridgeMessage(CreateLead, formData)] &&
                successTimers == old(successTimers) + 1 && !formShown && loadingShown
      ensures sendFails ==>
                sent == old(sent) && successTimers == old(successTimers) && formShown && !loadingShown
      ensures old(CurrentView()) == Editing ==> CurrentView() == if sendFails then Editing else Submitting
    {
      formShown, loadingShown := false, true;
      if sendFails {
        loadingShown, formShown := false, true;
      } else {
        sent := sent + [BridgeMessage(CreateLead, formData)];
        successTimers := successTimers + 1;
      }
    }

    /** The 2-second timer fires: hide the loading indicator, display the success message, arm the close timer. */
    method SuccessTimerFires()
      requires successTimers > 0
      modifies this`loadingShown, this`successShown, this`successTimers, this`closeTimers
      ensures !loadingShown && successShown && formShown == old(formShown)
      ensures successTimers == old(successTimers) - 1 && closeTimers == old(closeTimers) + 1
      ensures old(CurrentView()) == Submitting ==> CurrentView() == Succeeded
    {
      loadingShown, successShown := false, true;
      successTimers, closeTimers := successTimers - 1, closeTimers + 1;
    }

    /** The 3-second timer fires: ask the host to close the mini-app. */
    method CloseTimerFires()
      requires closeTimers > 0
      modifies this`closeTimers, this`closeRequested
      ensures closeRequested && closeTimers == old(closeTimers) - 1
    {
      closeTimers, closeRequested := closeTimers - 1, true;
    }
  }

  /**
   * The happy path from a filled-in form: it is submitted, passes, the bridge
   * accepts the message and both timers fire. The form ends on the success
   * message with the host asked to close, and exactly one create_lead
   * message, carrying the payload of the form's state, was added.
   */
  method SucceedingSession(form: Form)
    requires form.CurrentView() == Editing && form.successTimers == 0 && form.closeTimers == 0
    requires Passes(CheckForm(form.CurrentInputs(), form.dates))
    modifies form
    ensures form.CurrentView() == Succeeded && form.closeRequested
    ensures form.sent == old(form.sent) + [BridgeMessage(CreateLead, old(form.CurrentPayload()))]
    ensures form.dates == old(form.dates) && form.photos == old(form.photos)
    ensures form.successTimers == 0 && form.closeTimers == 0
  {
    var checks := form.Submit(false);
    form.SuccessTimerFires();
    form.CloseTimerFires();
  }
}
