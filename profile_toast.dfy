/** The profile-completeness toast: which required fields are missing, the percentage, and when it shows. */
module ProfileToast {
  import opened Js
  import opened Seqs
  import opened Profiles

  /** `!value || value.trim() === ""`. */
  predicate IsMissing(v: string) {
    v == "" || Trim(v) == ""
  }

  /** A field value is missing exactly when it is empty or white space only. */
  lemma IsMissingIffBlank(v: string)
    ensures IsMissing(v) <==> IsBlank(v)
  {
    TrimEmptyIffBlank(v);
  }

  /** A field the server did not send is missing once the profile page has normalised it. */
  lemma AbsentFieldIsMissing(d: ProfileData, f: Field)
    requires d.Get(f).None?
    ensures IsMissing(Normalize(d).Get(f))
  {
  }

  predicate FieldMissing(p: Profile, f: Field) {
    IsMissing(p.Get(f))
  }

  /** `getMissingFields`: the required fields, in their fixed order, whose value is missing. */
  function MissingFields(p: Profile): (r: seq<Field>)
    ensures |r| <= |RequiredFields|
    ensures forall i :: 0 <= i < |r| ==> FieldMissing(p, r[i])
  {
    Filter(RequiredFields, f => FieldMissing(p, f))
  }

  /** A field's position in the fixed list fullName, email, phone, gender, address. */
  function Rank(f: Field): int {
    match f
    case FullName => 0
    case Email => 1
    case Phone => 2
    case Gender => 3
    case Address => 4
  }

  /** The missing fields are listed in the fixed order of the required fields. */
  lemma MissingFieldsInOrder(p: Profile)
    ensures forall i, j :: 0 <= i < j < |MissingFields(p)| ==> Rank(MissingFields(p)[i]) < Rank(MissingFields(p)[j])
  {
    assert IncreasingBy(RequiredFields, Rank);
    FilterKeepsIncreasing(RequiredFields, f => FieldMissing(p, f), Rank);
  }

  /** Every missing field is listed, and only missing fields are listed. */
  lemma MissingFieldsExactly(p: Profile, f: Field)
    ensures f in MissingFields(p) <==> FieldMissing(p, f)
  {
    FilterMembership(RequiredFields, g => FieldMissing(p, g), f);
  }

  /** Each missing field is listed once: no field is listed twice. */
  lemma MissingFieldsOnce(p: Profile, f: Field)
    ensures multiset(MissingFields(p))[f] <= 1
  {
    FilterCount(RequiredFields, g => FieldMissing(p, g), f);
    RequiredFieldsOnce(f);
  }

  lemma RequiredFieldsOnce(f: Field)
    ensures multiset(RequiredFields)[f] == 1
  {
  }

  /** `Math.round(n / d)` for a non-negative numerator: halves round up. */
  function RoundDiv(n: nat, d: nat): (r: nat)
    requires d > 0
    ensures (2 * r - 1) * d <= 2 * n < (2 * r + 1) * d
  {
    (2 * n + d) / (2 * d)
  }

  /** `Math.round(((5 - missing) / 5) * 100)` for a count of missing fields. */
  function PercentFor(missing: nat): nat
    requires missing <= |RequiredFields|
  {
    RoundDiv((|RequiredFields| - missing) * 100, |RequiredFields|)
  }

  /** Each present field is worth exactly 20 percent. */
  lemma PercentForValue(missing: nat)
    requires missing <= |RequiredFields|
    ensures PercentFor(missing) == (5 - missing) * 20
    ensures 0 <= PercentFor(missing) <= 100 && PercentFor(missing) % 20 == 0
    ensures PercentFor(missing) == 100 <==> missing == 0
  {
    if missing == 0 {
    } else if missing == 1 {
    } else if missing == 2 {
    } else if missing == 3 {
    } else if missing == 4 {
    } else {
    }
  }

  /** `completePercent` for a profile. */
  function CompletePercent(p: Profile): nat {
    PercentFor(|MissingFields(p)|)
  }

  /**
   * The percentage is 20 for each present field, so it lies in 0..100,
   * is a multiple of 20, and is 100 exactly when nothing is missing.
   */
  lemma CompletePercentValue(p: Profile)
    ensures CompletePercent(p) == (5 - |MissingFields(p)|) * 20
    ensures 0 <= CompletePercent(p) <= 100 && CompletePercent(p) % 20 == 0
    ensures CompletePercent(p) == 100 <==> MissingFields(p) == []
  {
    PercentForValue(|MissingFields(p)|);
  }

  class Toast {
    var show: bool
    var lastPercent: int
    /** A five-second auto-hide is scheduled and has not been cleared. */
    var timerArmed: bool

    constructor ()
      ensures !show && lastPercent == 0 && !timerArmed
    {
      show := false;
      lastPercent := 0;
      timerArmed := false;
    }

    /**
     * One run of the effect, as written: on mount, and again whenever one
     * of its dependencies changed, `lastPercent` among them. A re-run
     * first clears the timer the previous run scheduled. On a change of
     * percentage it records the new one and shows the toast, with a fresh
     * timer, when the profile is incomplete, or hides it when complete;
     * with no change it only leaves the timer cleared.
     */
    method OnPercent(percent: int)
      modifies this
      ensures percent == old(lastPercent) ==> show == old(show) && lastPercent == old(lastPercent)
      ensures percent != old(lastPercent) ==> lastPercent == percent && show == (percent < 100)
      ensures percent != old(lastPercent) ==> (Renders(percent) <==> percent < 100)
      ensures timerArmed <==> percent != old(lastPercent) && percent < 100
    {
      timerArmed := false;
      if percent != lastPercent {
        lastPercent := percent;
        if percent < 100 {
          show := true;
          timerArmed := true;
        } else {
          show := false;
        }
      }
    }

    /**
     * The effect as evidently intended: it runs again only when the
     * percentage changes, so recording the percentage does not clear the
     * timer it has just scheduled.
     */
    method OnPercentIntended(percent: int)
      modifies this
      ensures percent == old(lastPercent) ==>
        show == old(show) && lastPercent == old(lastPercent) && timerArmed == old(timerArmed)
      ensures percent != old(lastPercent) ==> lastPercent == percent && show == (percent < 100)
      ensures percent != old(lastPercent) ==> (timerArmed <==> percent < 100)
    {
      if percent != lastPercent {
        timerArmed := false;
        lastPercent := percent;
        if percent < 100 {
          show := true;
          timerArmed := true;
        } else {
          show := false;
        }
      }
    }

    /** Five seconds later: a timer still scheduled hides the toast. */
    method TimerFires()
      modifies this`show, this`timerArmed
      ensures old(timerArmed) ==> !show && !timerArmed
      ensures !old(timerArmed) ==> show == old(show) && !timerArmed
    {
      if timerArmed {
        show := false;
      }
      timerArmed := false;
    }

    /** The close button. */
    method Dismiss()
      modifies this`show
      ensures !show
    {
      show := false;
    }

    /** The toast renders only while shown and while the profile is incomplete. */
    predicate Renders(percent: int)
      reads this
    {
      show && percent != 100
    }
  }

  /**
   * The auto-hide as written never fires: a fresh toast that sees an
   * incomplete profile is shown, the recorded percentage re-runs the
   * effect, whose cleanup clears the timer, and after the five seconds the
   * toast still renders.
   */
  method AutoHideAsWritten(percent: int) returns (t: Toast)
    requires 0 < percent < 100
    ensures t.Renders(percent)
    ensures !t.timerArmed
  {
    t := new Toast();
    t.OnPercent(percent);
    t.OnPercent(percent);
    t.TimerFires();
  }

  /**
   * With the effect as intended the same sequence shows the toast and then
   * hides it when the timer fires.
   */
  method AutoHideIntended(percent: int) returns (t: Toast, shownFirst: bool)
    requires 0 < percent < 100
    ensures shownFirst
    ensures !t.Renders(percent)
  {
    t := new Toast();
    t.OnPercentIntended(percent);
    shownFirst := t.Renders(percent);
    t.OnPercentIntended(percent);
    t.TimerFires();
  }

  /** A profile with every field missing is 0 percent complete. */
  lemma AllMissingIsZero(p: Profile)
    requires forall f :: FieldMissing(p, f)
    ensures MissingFields(p) == RequiredFields
    ensures CompletePercent(p) == 0
  {
    FilterKeepsAll(RequiredFields, f => FieldMissing(p, f));
    PercentForValue(5);
  }

  /**
   * A fresh toast that first sees a profile with every field missing stays
   * silent: the percentage, 0, equals the initial last percentage.
   */
  method FreshToastOnEmptyProfile(p: Profile) returns (t: Toast)
    requires forall f :: FieldMissing(p, f)
    ensures !t.Renders(CompletePercent(p))
  {
    t := new Toast();
    AllMissingIsZero(p);
    t.OnPercent(CompletePercent(p));
  }
}
