/**
  The twelve tense categories of the flag table, their display names and the
  order in which the table declares them.
 */
module Tenses {
  datatype Tense =
    | PastSimple | PastContinuous | PastPerfect | PastPerfectContinuous
    | PresentSimple | PresentContinuous | PresentPerfect | PresentPerfectContinuous
    | FutureSimple | FutureContinuous | FuturePerfect | FuturePerfectContinuous

  /** The key under which the flag table stores a category. */
  function Name(t: Tense): string {
    match t
    case PastSimple => "Past Simple"
    case PastContinuous => "Past Continuous"
    case PastPerfect => "Past Perfect"
    case PastPerfectContinuous => "Past Perfect Continuous"
    case PresentSimple => "Present Simple"
    case PresentContinuous => "Present Continuous"
    case PresentPerfect => "Present Perfect"
    case PresentPerfectContinuous => "Present Perfect Continuous"
    case FutureSimple => "Future Simple"
    case FutureContinuous => "Future Continuous"
    case FuturePerfect => "Future Perfect"
    case FuturePerfectContinuous => "Future Perfect Continuous"
  }

  /** The categories in the flag table's declaration order. */
  const Declared: seq<Tense> := [
    PastSimple, PastContinuous, PastPerfect, PastPerfectContinuous,
    PresentSimple, PresentContinuous, PresentPerfect, PresentPerfectContinuous,
    FutureSimple, FutureContinuous, FuturePerfect, FuturePerfectContinuous
  ]

  /** The display names in declaration order, as the table lists its keys. */
  const DeclaredNames: seq<string> := [
    "Past Simple", "Past Continuous", "Past Perfect", "Past Perfect Continuous",
    "Present Simple", "Present Continuous", "Present Perfect", "Present Perfect Continuous",
    "Future Simple", "Future Continuous", "Future Perfect", "Future Perfect Continuous"
  ]

  /** The only categories some rule of the analysis can raise. */
  const Reachable: set<Tense> := {PastSimple, PresentSimple, PresentContinuous, FutureSimple}

  /** Distinct categories have distinct keys, so the table has twelve entries. */
  lemma NameInjective(t: Tense, u: Tense)
    ensures Name(t) == Name(u) ==> t == u
  {
  }

  /** Every category is declared exactly once, and `DeclaredNames` lists their names. */
  lemma DeclaredIsTable()
    ensures |Declared| == 12 && |DeclaredNames| == 12
    ensures forall t: Tense :: t in Declared
    ensures forall i, j :: 0 <= i < j < |Declared| ==> Declared[i] != Declared[j]
    ensures forall i :: 0 <= i < 12 ==> DeclaredNames[i] == Name(Declared[i])
  {
    forall t: Tense ensures t in Declared {
      var i := match t
        case PastSimple => 0 case PastContinuous => 1
        case PastPerfect => 2 case PastPerfectContinuous => 3
        case PresentSimple => 4 case PresentContinuous => 5
        case PresentPerfect => 6 case PresentPerfectContinuous => 7
        case FutureSimple => 8 case FutureContinuous => 9
        case FuturePerfect => 10 case FuturePerfectContinuous => 11;
      assert Declared[i] == t;
    }
  }
}
