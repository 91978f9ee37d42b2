/**
 * The dialog that names an entry: length validation of the trimmed name, the
 * availability check against the names already used this season, and the
 * guard on submitting.
 */
module NameModal {
  import opened Wrappers
  import Strings

  const MIN_LEN := 2
  const MAX_LEN := 40

  /**
   * `invalidLen`: the trimmed name must be 2..40 UTF-16 code units long, so a
   * blank name and a name of more than 40 characters are always refused.
   */
  predicate InvalidLen(name: string): (b: bool)
    ensures Strings.AllSpace(name) ==> b
    ensures |Strings.Trim(name)| > MAX_LEN ==> b
  {
    Strings.TrimEmptyIffAllSpace(name);
    var n := Strings.Utf16Length(Strings.Trim(name));
    n < MIN_LEN || n > MAX_LEN
  }

  /** `invalid`: only a definite "taken" invalidates; an unknown answer does not. */
  predicate Invalid(name: string, taken: Option<bool>): (b: bool)
    ensures InvalidLen(name) ==> b
    ensures taken == Some(true) ==> b
    ensures !b ==> MIN_LEN <= Strings.Utf16Length(Strings.Trim(name)) <= MAX_LEN
  {
    InvalidLen(name) || taken == Some(true)
  }

  /**
   * Lengths count code units: one character above U+FFFF is already long
   * enough, and twenty-one of them are too long.
   */
  lemma SurrogatePairNames()
    ensures !InvalidLen("\U{1F3C0}")
    ensures InvalidLen(seq(21, _ => '\U{1F3C0}'))
  {
    var one: string := "\U{1F3C0}";
    Strings.TrimKeeps(one);
    Strings.Utf16LengthAstral(one);
    var many: string := seq(21, _ => '\U{1F3C0}');
    assert !Strings.IsSpace(many[0]) && !Strings.IsSpace(many[20]);
    Strings.TrimKeeps(many);
    Strings.Utf16LengthAstral(many);
  }

  /**
   * A name of valid length trims to 2..40 characters that neither begin nor
   * end with white space; a name of white space only is never valid.
   */
  lemma AcceptedNameShape(name: string)
    ensures !InvalidLen(name) ==>
      var t := Strings.Trim(name);
      && MIN_LEN <= Strings.Utf16Length(t) <= MAX_LEN && 1 <= |t| <= MAX_LEN
      && !Strings.IsSpace(t[0]) && !Strings.IsSpace(t[|t| - 1])
    ensures Strings.AllSpace(name) ==> InvalidLen(name) && Invalid(name, None)
  {
    Strings.TrimEmptyIffAllSpace(name);
  }

  /**
   * Availability counts only when it is known: an unknown or a "free" answer
   * leaves validity to the length rule, a "taken" answer always invalidates.
   */
  lemma AvailabilityRule(name: string)
    ensures Invalid(name, None) <==> InvalidLen(name)
    ensures Invalid(name, Some(false)) <==> InvalidLen(name)
    ensures Invalid(name, Some(true))
  {
  }

  /** The Save button's `disabled`: an enabled button means a valid, free-or-unknown name and nothing running. */
  function SaveDisabled(name: string, taken: Option<bool>, checking: bool, saving: bool): (disabled: bool)
    ensures !disabled ==> MIN_LEN <= Strings.Utf16Length(Strings.Trim(name)) <= MAX_LEN && taken != Some(true) && !checking && !saving
    ensures MIN_LEN <= Strings.Utf16Length(Strings.Trim(name)) <= MAX_LEN && taken != Some(true) && !checking && !saving ==> !disabled
    ensures InvalidLen(name) || taken == Some(true) || checking || saving ==> disabled
  {
    Invalid(name, taken) || checking || saving
  }

  /** `(count ?? 0) > 0` */
  function TakenFromCount(count: Option<int>): (taken: bool)
    ensures count.None? ==> !taken
    ensures count.Some? ==> (taken <==> count.value > 0)
  {
    count.GetOr(0) > 0
  }

  /**
   * The dialog's state. `pending` is the closure's `!cancelled`: a check has
   * been started and neither finished nor been cancelled by the next run of
   * the effect.
   */
  class NameForm {
    var name: string
    var touched: bool
    var checking: bool
    var taken: Option<bool>
    var checkErr: Option<string>
    var pending: bool

    constructor (defaultValue: string)
      ensures name == defaultValue && !touched && !checking
      ensures taken == None && checkErr == None && !pending
    {
      name := defaultValue;
      touched := false;
      checking := false;
      taken := None;
      checkErr := None;
      pending := false;
    }

    /** The effect that runs when the dialog opens: back to the default name, nothing known. */
    method Open(defaultValue: string)
      modifies this
      ensures name == defaultValue && !touched && taken == None && checkErr == None
      ensures checking == old(checking) && pending == old(pending)
    {
      name := defaultValue;
      touched := false;
      taken := None;
      checkErr := None;
    }

    method Edit(value: string)
      modifies this
      ensures name == value
      ensures touched == old(touched) && checking == old(checking) && taken == old(taken)
      ensures checkErr == old(checkErr) && pending == old(pending)
    {
      name := value;
    }

    method Blur()
      modifies this
      ensures touched
      ensures name == old(name) && checking == old(checking) && taken == old(taken)
      ensures checkErr == old(checkErr) && pending == old(pending)
    {
      touched := true;
    }

    /**
     * One run of the availability effect, after the cleanup of the previous
     * run has cancelled any pending check. A closed dialog does nothing; a
     * name of invalid length, or an empty user id or season, clears `taken`
     * and `checkErr` and starts no check; otherwise a check starts.
     */
    method RunCheckEffect(open: bool, userId: string, season: string) returns (started: bool)
      modifies this
      ensures started <==> open && !InvalidLen(old(name)) && userId != "" && season != ""
      ensures pending == started
      ensures name == old(name) && touched == old(touched)
      ensures !open ==> checking == old(checking) && taken == old(taken) && checkErr == old(checkErr)
      ensures open && !started ==> taken == None && checkErr == None && checking == old(checking)
      ensures started ==> checking && checkErr == None && taken == old(taken)
    {
      pending := false;
      started := false;
      if !open {
        return;
      }
      // `trimmed.length < 2 || trimmed.length > 40 || !userId || !season`
      if InvalidLen(name) || userId == "" || season == "" {
        taken := None;
        checkErr := None;
        return;
      }
      checking := true;
      checkErr := None;
      pending := true;
      started := true;
    }

    /**
     * The same effect with the cancelled check's `checking` flag cleared by
     * the cleanup, so that `checking` holds exactly while a check is pending.
     */
    method RunCheckEffectClearing(open: bool, userId: string, season: string) returns (started: bool)
      requires checking == pending
      modifies this
      ensures checking == pending
      ensures started <==> open && !InvalidLen(old(name)) && userId != "" && season != ""
      ensures pending == started
      ensures name == old(name) && touched == old(touched)
      ensures !open ==> taken == old(taken) && checkErr == old(checkErr)
      ensures open && !started ==> taken == None && checkErr == None
      ensures started ==> checkErr == None && taken == old(taken)
    {
      pending := false;
      checking := false;
      started := false;
      if !open {
        return;
      }
      // `trimmed.length < 2 || trimmed.length > 40 || !userId || !season`
      if InvalidLen(name) || userId == "" || season == "" {
        taken := None;
        checkErr := None;
        return;
      }
      checking := true;
      checkErr := None;
      pending := true;
      started := true;
    }

    /** The pending check answered with a count of matching names. */
    method CheckSucceeded(count: Option<int>)
      modifies this
      ensures old(pending) ==> taken == Some(TakenFromCount(count)) && !checking && !pending
      ensures old(pending) ==> checkErr == old(checkErr)
      ensures !old(pending) ==> taken == old(taken) && checking == old(checking) && pending == old(pending)
      ensures !old(pending) ==> checkErr == old(checkErr)
      ensures name == old(name) && touched == old(touched)
    {
      if !pending {
        return;
      }
      taken := Some(TakenFromCount(count));
      checking := false;
      pending := false;
    }

    /** The pending check failed; `message` is the error's message, if it has one. */
    method CheckFailed(message: Option<string>)
      modifies this
      ensures old(pending) ==> checkErr == Some(message.GetOr("Name check failed")) && !checking && !pending
      ensures old(pending) ==> taken == old(taken)
      ensures !old(pending) ==> checkErr == old(checkErr) && checking == old(checking) && pending == old(pending)
      ensures !old(pending) ==> taken == old(taken)
      ensures name == old(name) && touched == old(touched)
    {
      if !pending {
        return;
      }
      checkErr := Some(message.GetOr("Name check failed"));
      checking := false;
      pending := false;
    }

    /**
     * Submitting hands the trimmed name on only when it is valid and no check
     * is running; a name handed on always has a valid length.
     */
    method Submit() returns (saved: Option<string>)
      ensures saved.Some? <==> !Invalid(name, taken) && !checking
      ensures saved.Some? ==> saved.value == Strings.Trim(name) && MIN_LEN <= Strings.Utf16Length(saved.value) <= MAX_LEN
      ensures saved.Some? ==> !SaveDisabled(name, taken, checking, false)
    {
      if !Invalid(name, taken) && !checking {
        saved := Some(Strings.Trim(name));
      } else {
        saved := None;
      }
    }
  }

  /** "ab" has a valid length, "a" does not. */
  lemma ShortNames()
    ensures !InvalidLen("ab") && InvalidLen("a")
  {
    var ab: string, a: string := "ab", "a";
    Strings.TrimKeeps(ab);
    Strings.Utf16LengthBmp(ab);
    assert Strings.Utf16Length(Strings.Trim(ab)) == 2;
    Strings.TrimKeeps(a);
    Strings.Utf16LengthBmp(a);
    assert Strings.Utf16Length(Strings.Trim(a)) == 1;
  }

  /**
   * As written, a check cancelled by an edit to a too-short name leaves
   * `checking` set with no check pending.
   */
  method CheckingLeftSetWitness() returns (checking: bool, pending: bool)
    ensures checking && !pending
  {
    var form := new NameForm("");
    ShortNames();
    form.Edit("ab");
    var started := form.RunCheckEffect(true, "user", "2025-26");
    assert started && form.pending;
    form.Edit("a");
    assert form.name == "a";
    started := form.RunCheckEffect(true, "user", "2025-26");
    assert !started && !form.pending;
    checking, pending := form.checking, form.pending;
  }

  /** With the clearing effect the same edits leave no stale `checking`. */
  method CheckingClearedWitness() returns (checking: bool, pending: bool)
    ensures !checking && !pending
  {
    var form := new NameForm("");
    ShortNames();
    form.Edit("ab");
    var started := form.RunCheckEffectClearing(true, "user", "2025-26");
    assert started && form.pending;
    form.Edit("a");
    assert form.name == "a";
    started := form.RunCheckEffectClearing(true, "user", "2025-26");
    assert !started && !form.pending;
    checking, pending := form.checking, form.pending;
  }
}
