/**
  The page shell: the selected tab label picks at most one page routine,
  and the analyze page shows either a notice that nothing has been
  translated yet or the analysis of the stored translation.
 */
module Pages {
  import opened Wrappers
  import opened Tokens
  import opened Tenses
  import opened TenseAnalysis
  import opened PosListing

  datatype Page = Home | Translate | Analyze

  /** The tab labels offered by the page selector, in order. */
  const Tabs: seq<string> := ["Home", "Translate", "Analyze"]

  /** The label of a page's tab. */
  function Label(p: Page): (tab: string)
    ensures tab in Tabs
  {
    match p
    case Home => "Home"
    case Translate => "Translate"
    case Analyze => "Analyze"
  }

  /** The page routine run for the chosen tab; an unknown label runs none. */
  function PageFor(chosenTab: string): (page: Option<Page>)
    ensures forall p :: page == Some(p) <==> Label(p) == chosenTab
  {
    if chosenTab == "Home" then Some(Home)
    else if chosenTab == "Translate" then Some(Translate)
    else if chosenTab == "Analyze" then Some(Analyze)
    else None
  }

  /** Every tab's label runs exactly that tab's page. */
  lemma LabelRoundTrip(p: Page)
    ensures PageFor(Label(p)) == Some(p)
  {
  }

  const NoTranslationMessage := "No translation available. Please translate a sentence first."
  const NoTenseMessage := "No recognizable tense found."

  /** What the analyze page shows (the dependency diagram is not modelled). */
  datatype AnalyzeView =
    | Notice(message: string)
    | Analysis(translatedSentence: string, posHtml: string, tenseLines: seq<string>)

  /** The lines written under the tense heading. */
  function TenseLines(sentenceTenses: seq<string>): (lines: seq<string>)
    ensures lines != []
    ensures forall n :: n in lines ==> n in sentenceTenses || n == NoTenseMessage
    ensures forall n :: n in sentenceTenses ==> n in lines
  {
    if sentenceTenses == [] then [NoTenseMessage] else sentenceTenses
  }

  /**
    The analyze page. Without a stored translation it shows a notice and
    never calls the parser; otherwise it parses the stored translation once
    and shows its listing and its tenses. `parsed` records whether the
    parser was called.
   */
  method AnalyzePage(stored: Option<string>, parse: string -> seq<Token>) returns (view: AnalyzeView, parsed: bool)
    ensures parsed <==> stored.Some?
    ensures stored.None? ==> view == Notice(NoTranslationMessage)
    ensures stored.Some? ==>
      var doc := parse(stored.value);
      view == Analysis(stored.value, Rendered(AnalyzeSentence(doc)), TenseLines(Report(doc)))
  {
    if stored.Some? {
      var translatedSentence := stored.value;
      var doc := parse(translatedSentence);
      parsed := true;
      var posTags := AnalyzeSentence(doc);
      var htmlAnalysis := VisualizeAnalysis(posTags);
      var sentenceTenses := AnalyzeTense(doc);
      view := Analysis(translatedSentence, htmlAnalysis, TenseLines(sentenceTenses));
    } else {
      view := Notice(NoTranslationMessage);
      parsed := false;
    }
  }

  /**
    The tense section shows only the no-tense notice exactly when no token
    raises a flag; otherwise it shows the detected names.
   */
  lemma NoTenseNoticeIff(doc: seq<Token>)
    ensures TenseLines(Report(doc)) == [NoTenseMessage] <==> forall k :: 0 <= k < |doc| ==> Contribution(doc[k]) == None
    ensures Report(doc) != [] ==> TenseLines(Report(doc)) == Report(doc)
  {
    EmptyReportIff(doc);
    OnlyFourReported(doc);
    if Report(doc) != [] {
      assert Report(doc)[0] in Report(doc);
      assert TenseLines(Report(doc))[0] != NoTenseMessage;
    }
  }
}
