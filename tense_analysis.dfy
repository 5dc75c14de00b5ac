/**
  The tense rule table. Each token raises at most one flag of the
  twelve-entry table; the analysis walks the tokens in document order, raises
  flags and never lowers one, and finally lists the names of the raised
  flags in the table's declaration order.
 */
module TenseAnalysis {
  import opened Wrappers
  import opened Tokens
  import opened Tenses

  /**
    The flag one token raises, if any. An auxiliary is looked at only for
    the lemmas "be" and "will"; a present-tense feature wins over a
    past-tense one; a main verb with neither feature counts as Present
    Continuous only when it is the root and carries the progressive aspect.
   */
  function Contribution(tok: Token): (c: Option<Tense>)
    ensures c.Some? ==> c.value in Reachable
    ensures IsSilent(tok) ==> c.None?
  {
    if tok.pos == "AUX" then
      if tok.baseForm == "be" then
        if "Tense=Pres" in tok.morph then Some(PresentSimple)
        else if "Tense=Past" in tok.morph then Some(PastSimple)
        else None
      else if tok.baseForm == "will" then Some(FutureSimple)
      else None
    else if tok.pos == "VERB" then
      if "Tense=Pres" in tok.morph then Some(PresentSimple)
      else if "Tense=Past" in tok.morph then Some(PastSimple)
      else if tok.dep == "ROOT" && "Aspect=Prog" in tok.morph then Some(PresentContinuous)
      else None
    else None
  }

  /** The flag table after one more flag has (possibly) been raised. */
  function Raise(flags: map<Tense, bool>, c: Option<Tense>): map<Tense, bool> {
    match c
    case None => flags
    case Some(t) => flags[t := true]
  }

  /** The categories raised by the tokens of `doc`. */
  function Detected(doc: seq<Token>): set<Tense>
    decreases |doc|
  {
    if doc == [] then {}
    else
      var last := doc[|doc| - 1];
      Detected(doc[..|doc| - 1]) + (if Contribution(last).Some? then {Contribution(last).value} else {})
  }

  /** The flag table once every token of `doc` has been looked at. */
  function Flags(doc: seq<Token>): map<Tense, bool> {
    map t | t in Declared :: t in Detected(doc)
  }

  /** The names of the raised flags, in the order `order` lists the categories. */
  function Listed(order: seq<Tense>, flags: map<Tense, bool>): (names: seq<string>)
    requires forall t :: t in order ==> t in flags
    ensures |names| <= |order|
  {
    if order == [] then []
    else (if flags[order[0]] then [Name(order[0])] else []) + Listed(order[1..], flags)
  }

  /** What the analysis reports for a parsed sentence. */
  function Report(doc: seq<Token>): seq<string> {
    Listed(Declared, Flags(doc))
  }

  /** One more token extends the table by exactly that token's flag. */
  lemma FlagsExtend(doc: seq<Token>, i: nat)
    requires i < |doc|
    ensures Flags(doc[..i + 1]) == Raise(Flags(doc[..i]), Contribution(doc[i]))
  {
    assert doc[..i + 1][..i] == doc[..i];
    DeclaredIsTable();
  }

  /**
    The analysis itself: a flag table initialised to all-false, an in-order
    walk over the tokens raising flags, and the list of raised names.
   */
  method AnalyzeTense(doc: seq<Token>) returns (sentenceTenses: seq<string>)
    ensures sentenceTenses == Report(doc)
    ensures forall n :: n in sentenceTenses ==> n in {"Past Simple", "Present Simple", "Present Continuous", "Future Simple"}
  {
    var tenses := map[
      PastSimple := false, PastContinuous := false, PastPerfect := false, PastPerfectContinuous := false,
      PresentSimple := false, PresentContinuous := false, PresentPerfect := false, PresentPerfectContinuous := false,
      FutureSimple := false, FutureContinuous := false, FuturePerfect := false, FuturePerfectContinuous := false
    ];
    DeclaredIsTable();
    assert tenses == Flags(doc[..0]);
    for i := 0 to |doc|
      invariant tenses == Flags(doc[..i])
    {
      var token := doc[i];
      FlagsExtend(doc, i);
      if token.pos == "AUX" {
        if token.baseForm == "be" {
          if "Tense=Pres" in token.morph {
            tenses := tenses[PresentSimple := true];
          } else if "Tense=Past" in token.morph {
            tenses := tenses[PastSimple := true];
          }
        } else if token.baseForm == "will" {
          tenses := tenses[FutureSimple := true];
        }
      } else if token.pos == "VERB" {
        if "Tense=Pres" in token.morph {
          tenses := tenses[PresentSimple := true];
        } else if "Tense=Past" in token.morph {
          tenses := tenses[PastSimple := true];
        } else if token.dep == "ROOT" && "Aspect=Prog" in token.morph {
          tenses := tenses[PresentContinuous := true];
        }
      }
    }
    assert doc[..|doc|] == doc;
    sentenceTenses := Listed(Declared, tenses);
    OnlyFourReported(doc);
  }

  // ---------------------------------------------------------------------
  // Properties of the rule table

  /** `a` can be obtained from `b` by deleting elements. */
  predicate IsSubsequence<T(==)>(a: seq<T>, b: seq<T>)
    decreases |b|
  {
    if a == [] then true
    else if b == [] then false
    else (a[0] == b[0] && IsSubsequence(a[1..], b[1..])) || IsSubsequence(a, b[1..])
  }

  predicate NoDuplicates<T(==)>(s: seq<T>) {
    forall i, j :: 0 <= i < j < |s| ==> s[i] != s[j]
  }

  /** A token no rule looks at: neither an auxiliary nor a verb, or an auxiliary other than "be" and "will". */
  predicate IsSilent(tok: Token) {
    (tok.pos != "AUX" && tok.pos != "VERB") || (tok.pos == "AUX" && tok.baseForm != "be" && tok.baseForm != "will")
  }

  /** A root main verb in the progressive aspect that carries no tense feature. */
  predicate IsProgressiveRoot(tok: Token) {
    tok.pos == "VERB" && tok.dep == "ROOT" && "Aspect=Prog" in tok.morph
    && "Tense=Pres" !in tok.morph && "Tense=Past" !in tok.morph
  }

  /** In a duplicate-free sequence the head is not in the tail, and the tail is duplicate-free. */
  lemma HeadNotInTail<T>(s: seq<T>)
    requires s != [] && NoDuplicates(s)
    ensures s[0] !in s[1..] && NoDuplicates(s[1..])
  {
  }

  /** A category is detected exactly when some token of the sentence raises it. */
  lemma {:induction false} DetectedIsUnion(doc: seq<Token>, t: Tense)
    ensures t in Detected(doc) <==> exists k :: 0 <= k < |doc| && Contribution(doc[k]) == Some(t)
    decreases |doc|
  {
    if doc != [] {
      var front := doc[..|doc| - 1];
      DetectedIsUnion(front, t);
      if t in Detected(front) {
        var k :| 0 <= k < |front| && Contribution(front[k]) == Some(t);
        assert doc[k] == front[k];
      }
      if exists k :: 0 <= k < |doc| && Contribution(doc[k]) == Some(t) {
        var k :| 0 <= k < |doc| && Contribution(doc[k]) == Some(t);
        if k < |doc| - 1 {
          assert front[k] == doc[k];
        }
      }
    }
  }

  /** Joining two token sequences joins what they detect: no flag is ever lowered. */
  lemma DetectedConcat(a: seq<Token>, b: seq<Token>)
    ensures Detected(a + b) == Detected(a) + Detected(b)
  {
    forall t: Tense
      ensures t in Detected(a + b) <==> t in Detected(a) + Detected(b)
    {
      DetectedIsUnion(a + b, t);
      DetectedIsUnion(a, t);
      DetectedIsUnion(b, t);
      if t in Detected(a) {
        var k :| 0 <= k < |a| && Contribution(a[k]) == Some(t);
        assert (a + b)[k] == a[k];
      }
      if t in Detected(b) {
        var k :| 0 <= k < |b| && Contribution(b[k]) == Some(t);
        assert (a + b)[|a| + k] == b[k];
      }
      if t in Detected(a + b) {
        var k :| 0 <= k < |a + b| && Contribution((a + b)[k]) == Some(t);
        if k >= |a| {
          assert b[k - |a|] == (a + b)[k];
        }
      }
    }
  }

  /** A name is listed exactly when its category is in `order` and raised. */
  lemma {:induction false} ListedMembers(order: seq<Tense>, flags: map<Tense, bool>, t: Tense)
    requires forall u :: u in order ==> u in flags
    ensures Name(t) in Listed(order, flags) <==> t in order && flags[t]
  {
    if order != [] {
      ListedMembers(order[1..], flags, t);
      NameInjective(t, order[0]);
    }
  }

  /** Everything listed is the name of a raised category of `order`. */
  lemma {:induction false} ListedAreNames(order: seq<Tense>, flags: map<Tense, bool>, n: string)
    requires forall u :: u in order ==> u in flags
    requires n in Listed(order, flags)
    ensures exists t :: t in order && flags[t] && Name(t) == n
  {
    if !(flags[order[0]] && n == Name(order[0])) {
      ListedAreNames(order[1..], flags, n);
    }
  }

  /** A category's name is reported exactly when the category is detected. */
  lemma ReportMembership(doc: seq<Token>, t: Tense)
    ensures Name(t) in Report(doc) <==> t in Detected(doc)
  {
    DeclaredIsTable();
    ListedMembers(Declared, Flags(doc), t);
  }

  /** Only the four reachable categories are ever detected. */
  lemma {:induction false} OnlyReachableDetected(doc: seq<Token>)
    ensures Detected(doc) <= Reachable
    decreases |doc|
  {
    if doc != [] {
      OnlyReachableDetected(doc[..|doc| - 1]);
    }
  }

  /** The report only ever names Past Simple, Present Simple, Present Continuous or Future Simple. */
  lemma OnlyFourReported(doc: seq<Token>)
    ensures forall n :: n in Report(doc) ==> n in {"Past Simple", "Present Simple", "Present Continuous", "Future Simple"}
  {
    DeclaredIsTable();
    OnlyReachableDetected(doc);
    forall n | n in Report(doc)
      ensures n in {"Past Simple", "Present Simple", "Present Continuous", "Future Simple"}
    {
      ListedAreNames(Declared, Flags(doc), n);
      var t :| t in Declared && Flags(doc)[t] && Name(t) == n;
      ReachableName(t);
    }
  }

  /** The names of the four reachable categories. */
  lemma ReachableName(t: Tense)
    requires t in Reachable
    ensures Name(t) in {"Past Simple", "Present Simple", "Present Continuous", "Future Simple"}
  {
  }

  /** The other eight categories are declared but never reported, whatever the sentence. */
  lemma NeverReported(doc: seq<Token>, t: Tense)
    requires t !in Reachable
    ensures Name(t) !in Report(doc)
  {
    OnlyReachableDetected(doc);
    ReportMembership(doc, t);
  }

  /** Listing follows `order`, so the result is a subsequence of the names in that order. */
  lemma {:induction false} ListedIsSubsequence(order: seq<Tense>, names: seq<string>, flags: map<Tense, bool>)
    requires forall u :: u in order ==> u in flags
    requires |names| == |order| && forall i :: 0 <= i < |order| ==> names[i] == Name(order[i])
    ensures IsSubsequence(Listed(order, flags), names)
  {
    if order != [] {
      ListedIsSubsequence(order[1..], names[1..], flags);
      var rest := Listed(order[1..], flags);
      if flags[order[0]] {
        assert Listed(order, flags) == [names[0]] + rest;
        assert ([names[0]] + rest)[1..] == rest;
      } else {
        assert Listed(order, flags) == rest;
      }
    }
  }

  /** Listing a duplicate-free order lists no name twice. */
  lemma {:induction false} ListedNoDuplicates(order: seq<Tense>, flags: map<Tense, bool>)
    requires forall u :: u in order ==> u in flags
    requires NoDuplicates(order)
    ensures NoDuplicates(Listed(order, flags))
  {
    if order != [] {
      var rest := Listed(order[1..], flags);
      HeadNotInTail(order);
      ListedNoDuplicates(order[1..], flags);
      if flags[order[0]] {
        ListedMembers(order[1..], flags, order[0]);
        var r := [Name(order[0])] + rest;
        forall i, j | 0 <= i < j < |r| ensures r[i] != r[j] {
          if i == 0 {
            assert r[j] == rest[j - 1];
          } else {
            assert r[i] == rest[i - 1] && r[j] == rest[j - 1];
          }
        }
      }
    }
  }

  /** The report lists the detected names in declaration order, each at most once. */
  lemma ReportIsOrderedSubset(doc: seq<Token>)
    ensures IsSubsequence(Report(doc), DeclaredNames)
    ensures NoDuplicates(Report(doc))
  {
    DeclaredIsTable();
    ListedIsSubsequence(Declared, DeclaredNames, Flags(doc));
    ListedNoDuplicates(Declared, Flags(doc));
  }

  /** An auxiliary "will" anywhere in the sentence reports Future Simple, whatever its features. */
  lemma WillMeansFuture(doc: seq<Token>, k: nat)
    requires k < |doc| && doc[k].pos == "AUX" && doc[k].baseForm == "will"
    ensures "Future Simple" in Report(doc)
  {
    DetectedIsUnion(doc, FutureSimple);
    ReportMembership(doc, FutureSimple);
  }

  /** When exactly one category is raised, exactly its name is listed. */
  lemma {:induction false} ListedSingle(order: seq<Tense>, flags: map<Tense, bool>, t: Tense)
    requires forall u :: u in order ==> u in flags
    requires NoDuplicates(order) && t in order
    requires forall u :: u in order ==> (flags[u] <==> u == t)
    ensures Listed(order, flags) == [Name(t)]
  {
    HeadNotInTail(order);
    if order[0] == t {
      ListedNone(order[1..], flags);
    } else {
      ListedSingle(order[1..], flags, t);
    }
  }

  /** When no category of `order` is raised, nothing is listed. */
  lemma {:induction false} ListedNone(order: seq<Tense>, flags: map<Tense, bool>)
    requires forall u :: u in order ==> u in flags && !flags[u]
    ensures Listed(order, flags) == []
  {
    if order != [] {
      ListedNone(order[1..], flags);
    }
  }

  /** The report of a one-token sentence is the name of that token's flag, or nothing. */
  lemma ReportOfOne(tok: Token)
    ensures Report([tok]) == (match Contribution(tok) case Some(t) => [Name(t)] case None => [])
  {
    DeclaredIsTable();
    assert [tok][..0] == [];
    assert Detected([tok]) == if Contribution(tok).Some? then {Contribution(tok).value} else {};
    var flags := Flags([tok]);
    match Contribution(tok)
    case Some(t) => ListedSingle(Declared, flags, t);
    case None => ListedNone(Declared, flags);
  }

  /**
    For "be" auxiliaries and verbs a present-tense feature wins: a token with
    both tense features reports Present Simple only.
   */
  lemma PresentBeforePast(tok: Token)
    requires (tok.pos == "AUX" && tok.baseForm == "be") || tok.pos == "VERB"
    requires "Tense=Pres" in tok.morph
    ensures Report([tok]) == ["Present Simple"]
  {
    ReportOfOne(tok);
  }

  /** Without a present-tense feature, a past-tense one reports Past Simple. */
  lemma PastWithoutPresent(tok: Token)
    requires (tok.pos == "AUX" && tok.baseForm == "be") || tok.pos == "VERB"
    requires "Tense=Pres" !in tok.morph && "Tense=Past" in tok.morph
    ensures Report([tok]) == ["Past Simple"]
  {
    ReportOfOne(tok);
  }

  /** A "be" auxiliary with neither tense feature is ignored. */
  lemma BeWithoutTenseIgnored(tok: Token)
    requires tok.pos == "AUX" && tok.baseForm == "be"
    requires "Tense=Pres" !in tok.morph && "Tense=Past" !in tok.morph
    ensures Report([tok]) == []
  {
    ReportOfOne(tok);
  }

  /** Present Continuous is reported exactly when some token is a progressive root verb without tense. */
  lemma PresentContinuousIff(doc: seq<Token>)
    ensures "Present Continuous" in Report(doc) <==> exists k :: 0 <= k < |doc| && IsProgressiveRoot(doc[k])
  {
    DetectedIsUnion(doc, PresentContinuous);
    ReportMembership(doc, PresentContinuous);
    assert forall tok :: Contribution(tok) == Some(PresentContinuous) <==> IsProgressiveRoot(tok);
  }

  /** The report is empty exactly when no token raises a flag; the empty sentence reports nothing. */
  lemma EmptyReportIff(doc: seq<Token>)
    ensures Report(doc) == [] <==> forall k :: 0 <= k < |doc| ==> Contribution(doc[k]) == None
  {
    DeclaredIsTable();
    if Report(doc) != [] {
      ListedAreNames(Declared, Flags(doc), Report(doc)[0]);
      var t :| t in Declared && Flags(doc)[t] && Name(t) == Report(doc)[0];
      DetectedIsUnion(doc, t);
    } else {
      forall k | 0 <= k < |doc| ensures Contribution(doc[k]) == None {
        if Contribution(doc[k]).Some? {
          var t := Contribution(doc[k]).value;
          DetectedIsUnion(doc, t);
          ReportMembership(doc, t);
        }
      }
    }
  }

  /** A sentence made only of tokens no rule looks at reports nothing. */
  lemma SilentSentence(doc: seq<Token>)
    requires forall k :: 0 <= k < |doc| ==> IsSilent(doc[k])
    ensures Report(doc) == []
  {
    EmptyReportIff(doc);
  }

  /** The report depends only on which tokens occur: reordering or repeating them changes nothing. */
  lemma SameTokensSameReport(a: seq<Token>, b: seq<Token>)
    requires forall x :: x in a <==> x in b
    ensures Report(a) == Report(b)
  {
    forall t: Tense ensures t in Detected(a) <==> t in Detected(b) {
      DetectedIsUnion(a, t);
      DetectedIsUnion(b, t);
      if t in Detected(a) {
        var k :| 0 <= k < |a| && Contribution(a[k]) == Some(t);
        assert a[k] in b;
      }
      if t in Detected(b) {
        var k :| 0 <= k < |b| && Contribution(b[k]) == Some(t);
        assert b[k] in a;
      }
    }
    assert Detected(a) == Detected(b);
  }
}
