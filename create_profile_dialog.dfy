/** The profile-creation dialog: its form fields, the slug it cleans or has generated, the
    availability answer it keeps, and the submit that creates a profile in the table. Effects are
    events the caller fires in some order; the 500 ms debounce is not modelled. */
module CreateProfileDialog {
  import opened Common
  import opened JsText
  import opened Slug
  import opened Profiles

  /** The shortest slug the dialog checks or submits, in UTF-16 code units as `length` counts. */
  const MinSlugLength := 3

  class DialogState {
    var companyName: string
    var slug: string
    var slogan: string
    var email: string
    var phone: string
    var slugManuallyEdited: bool
    /** `slugCheckResult`: `None` is `null` (not checked yet). */
    var slugCheckResult: Option<bool>

    /** Every field blank, nothing edited, nothing checked. */
    predicate IsBlank()
      reads this
    {
      companyName == "" && slug == "" && slogan == "" && email == "" && phone == ""
      && !slugManuallyEdited && slugCheckResult == None
    }

    constructor ()
      ensures IsBlank()
    {
      companyName, slug, slogan, email, phone := "", "", "", "", "";
      slugManuallyEdited := false;
      slugCheckResult := None;
    }

    /** Typing in the company-name field. */
    method SetCompanyName(value: string)
      modifies this`companyName
      ensures companyName == value
    {
      companyName := value;
    }

    /** The auto-slug effect. `generated` is what `generate_unique_slug` answered for the company
        name (`None` when it failed, which only logs). A non-empty name regenerates the slug only
        while the slug has not been edited by hand. */
    method AutoSlugEffect(generated: Option<string>)
      modifies this`slug
      ensures slug == if old(companyName) != "" && !old(slugManuallyEdited) && generated.Some?
                      then generated.value else old(slug)
      ensures slugManuallyEdited ==> slug == old(slug)
    {
      if companyName != "" && !slugManuallyEdited {
        if generated.Some? {
          slug := generated.value;
        }
      }
    }

    /** `handleSlugChange`: marks the slug as edited by hand and stores the cleaned value. */
    method HandleSlugChange(value: string)
      modifies this`slug, this`slugManuallyEdited
      ensures slugManuallyEdited
      ensures slug == CleanSlug(value) && IsCleanSlug(slug)
    {
      slugManuallyEdited := true;
      slug := CleanSlug(value);
    }

    /** The availability effect that runs when the slug changes. A slug shorter than three
        characters is never checked and clears the result; otherwise the result is the RPC's
        answer, or `null` when it failed. */
    method AvailabilityEffect(table: ProfileTable, rpcReached: bool)
      modifies this`slugCheckResult
      ensures Utf16Length(slug) < MinSlugLength ==> slugCheckResult == None
      ensures Utf16Length(slug) >= MinSlugLength ==>
        slugCheckResult == (if rpcReached then Some(SlugAvailable(table.rows, slug)) else None)
    {
      if slug != "" && Utf16Length(slug) >= MinSlugLength {
        var answer := CheckSlugAvailability(table.rows, slug, None, rpcReached);
        if answer.Ok? {
          slugCheckResult := Some(answer.value);
        } else {
          slugCheckResult := None;
        }
      } else {
        slugCheckResult := None;
      }
    }

    /** The submit button is enabled. `createPending` and `checkPending` are the two mutations'
        in-flight flags. */
    predicate SubmitEnabled(createPending: bool, checkPending: bool)
      reads this
    {
      !(companyName == "" || slug == "" || Utf16Length(slug) < MinSlugLength || slugCheckResult == Some(false)
        || createPending || checkPending)
    }

    /** The insert payload `handleSubmit` sends: the form's fields, active. */
    function Draft(): NewProfile
      reads this
    {
      NewProfile(companyName, slug, slogan, email, phone, true)
    }

    /** The guards of `handleSubmit` pass: the slug is long enough and not known to be taken, and
        when no answer is known yet, the check made at submit time answers "available". */
    predicate SubmitGuardsPass(rows: Rows, checkReached: bool)
      reads this
    {
      Utf16Length(slug) >= MinSlugLength && slugCheckResult != Some(false)
      && (slugCheckResult == None ==> checkReached && SlugAvailable(rows, slug))
    }

    /** The guards at the start of `handleSubmit`, with the check it makes when no answer is
        known yet. A negative answer of that check is recorded; nothing else changes. */
    method SubmitGuards(rows: Rows, checkReached: bool) returns (pass: bool)
      modifies this`slugCheckResult
      ensures pass == old(SubmitGuardsPass(rows, checkReached))
      ensures slugCheckResult ==
        if Utf16Length(slug) >= MinSlugLength && old(slugCheckResult) == None && checkReached
           && !SlugAvailable(rows, slug)
        then Some(false) else old(slugCheckResult)
    {
      if slug == "" || Utf16Length(slug) < MinSlugLength {
        return false;
      }
      if slugCheckResult == Some(false) {
        return false;
      }
      if slugCheckResult == None {
        var isAvailable := CheckSlugAvailability(rows, slug, None, checkReached);
        if isAvailable.Err? {
          return false;
        }
        if !isAvailable.value {
          slugCheckResult := Some(false);
          return false;
        }
      }
      return true;
    }

    /** The "Reset form" step after a successful create: every field back to blank. */
    method ResetForm()
      modifies this
      ensures IsBlank()
    {
      companyName, slug, slogan, email, phone := "", "", "", "", "";
      slugManuallyEdited := false;
      slugCheckResult := None;
    }

    /** `handleSubmit`. `checkReached` says whether the check made at submit time (only when no
        answer is known yet) reached the RPC; `createReached` whether the one inside the create
        did; `user` and `newId` are as for `ProfileTable.CreateProfile`. Returns the created
        profile, if any. */
    method HandleSubmit(table: ProfileTable, user: Option<UserId>, checkReached: bool,
                        createReached: bool, newId: Id) returns (created: Option<Profile>)
      requires table.Valid()
      modifies this, table
      ensures table.Valid()
      // A profile is created exactly when the guards pass and the create succeeds, and it is the
      // row the create inserts.
      ensures created.Some? <==> (old(SubmitGuardsPass(table.rows, checkReached))
                                  && CreateOutcome(old(table.rows), old(table.clock), user, old(Draft()),
                                                   createReached, newId).Ok?)
      ensures created.Some? ==>
        created.value == CreateOutcome(old(table.rows), old(table.clock), user, old(Draft()), createReached, newId).value
      // A negative answer from the check made at submit time is recorded.
      ensures (Utf16Length(old(slug)) >= MinSlugLength && old(slugCheckResult) == None && checkReached
               && !SlugAvailable(old(table.rows), old(slug)))
        ==> created.None? && slugCheckResult == Some(false)
      // A short slug or a known-taken slug creates nothing and changes nothing.
      ensures Utf16Length(old(slug)) < MinSlugLength || old(slugCheckResult) == Some(false) ==>
        created.None? && table.rows == old(table.rows) && unchanged(this)
      // A profile is created only for an available slug, active, with the form's fields.
      ensures created.Some? ==>
        Utf16Length(old(slug)) >= MinSlugLength && old(slugCheckResult) != Some(false)
        && SlugAvailable(old(table.rows), old(slug))
        && created.value.slug == old(slug) && created.value.isActive
        && created.value.companyName == old(companyName) && created.value.slogan == old(slogan)
        && created.value.email == old(email) && created.value.phone == old(phone)
        && table.rows == old(table.rows)[created.value.id := created.value]
      // After a creation the form is reset.
      ensures created.Some? ==> IsBlank()
      // Otherwise the table is untouched, the form too, and the only possible change is a
      // negative answer recorded by the check made at submit time.
      ensures created.None? ==> table.rows == old(table.rows)
      ensures created.None? ==>
        companyName == old(companyName) && slug == old(slug) && slogan == old(slogan)
        && email == old(email) && phone == old(phone) && slugManuallyEdited == old(slugManuallyEdited)
      ensures created.None? && slugCheckResult != old(slugCheckResult) ==>
        old(slugCheckResult) == None && slugCheckResult == Some(false)
        && !SlugAvailable(old(table.rows), slug)
    {
      created := None;
      var pass := SubmitGuards(table.rows, checkReached);
      if !pass {
        return;
      }
      var draft := Draft();
      var r := table.CreateProfile(user, draft, createReached, newId);
      if r.Err? {
        return;
      }
      ResetForm();
      created := Some(r.value);
    }
  }

  /** The enabled button implies the first two guards of `handleSubmit` pass. */
  lemma EnabledPassesGuards(d: DialogState, createPending: bool, checkPending: bool)
    requires d.SubmitEnabled(createPending, checkPending)
    ensures Utf16Length(d.slug) >= MinSlugLength && d.slugCheckResult != Some(false) && d.companyName != ""
  {
  }

  /** A slug typed by hand that holds no ASCII letter or digit cleans to "" and keeps the submit
      button disabled. */
  lemma InvalidOnlySlugDisables(d: DialogState, value: string, createPending: bool, checkPending: bool)
    requires d.slug == CleanSlug(value) && Alnums(LowerAscii(value)) == []
    ensures !d.SubmitEnabled(createPending, checkPending)
  {
    CleanSlugEmptyIff(value);
  }
}
