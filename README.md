# ViEng AI tense analysis, modelled in Dafny

ViEng AI is a small Streamlit page. It translates a Vietnamese sentence into
English with a pretrained translation model, parses the English with a
pretrained tagger, lists every word with its part-of-speech tag and guesses
the sentence's tenses. The tense guess comes from a short rule table. That
rule table, the word/tag listing, the analyze page's gate on a stored
translation and the tab dispatch are the program's own logic. This project
models them and proves what they guarantee.

Layout (one module per component):

- `wrappers.dfy` (`Wrappers`): `Option`.
- `tokens.dfy` (`Tokens`): `Token`, the parser output the analysis reads.
  It keeps the surface text, the POS tag, the lemma (field `baseForm`, since
  `lemma` is a Dafny keyword), the morphological features as a set of
  `Key=Value` strings, and the dependency label.
- `tenses.dfy` (`Tenses`): the twelve categories of the flag table, their
  names and their declaration order.
- `tense_analysis.dfy` (`TenseAnalysis`): the rule cascade (`Contribution`)
  and the specification of the whole analysis (`Detected`, `Flags`, `Report`).
  It also holds the imperative `AnalyzeTense` method, which keeps a flag
  table in a `map<Tense, bool>` and raises flags while it walks the tokens,
  and the lemmas about the report.
- `pos_listing.dfy` (`PosListing`): `AnalyzeSentence` (the word/tag pairs),
  whose own contract says pair by pair what it returns, and
  `VisualizeAnalysis` (a loop that builds the HTML listing), proved equal to
  the function `Rendered`, with lemmas about `Rendered`.
- `pages.dfy` (`Pages`): the tab-label dispatch and the analyze page.

Points of the code the model follows closely:

- An AUX token never reaches the VERB rule. The checks are nested with
  `elif` (viEnAI.py:227-236), and among auxiliaries only the lemmas "be" and
  "will" are looked at.
- An AUX "be" with neither `Tense=Pres` nor `Tense=Past` raises nothing
  (viEnAI.py:228-232; `BeWithoutTenseIgnored`).
- `analyze_page` only checks whether a translation is stored
  (viEnAI.py:152), not whether it is empty. So `AnalyzePage` takes an
  `Option<string>`, and an empty stored string is analysed like any other.
- The page shows two tab radios (viEnAI.py:17-22 and 85-90). The second one
  overwrites `chosen_tab`, so only the plain labels "Home", "Translate" and
  "Analyze" reach the dispatch. `PageFor` is written against those labels.

## Model

| member | source | states |
|---|---|---|
| `Tenses.DeclaredIsTable` | viEnAI.py:209-222 | the table declares each of the twelve categories exactly once, and its keys are the twelve names in declaration order |
| `Tenses.NameInjective` | viEnAI.py:209-222 | distinct categories have distinct keys |
| `TenseAnalysis.Contribution` | viEnAI.py:227-243 | the if/elif cascade for one token: the flag it raises, if any, is always one of the four reachable categories, and a token that is neither AUX nor VERB, or is an AUX other than "be" and "will", raises none |
| `TenseAnalysis.Listed` | viEnAI.py:245 | the final comprehension: the names of the categories whose flag is true, in table order, never more names than categories |
| `TenseAnalysis.FlagsExtend` | viEnAI.py:225-243 | looking at one more token changes the flag table by exactly that token's flag, or not at all |
| `TenseAnalysis.AnalyzeTense` | viEnAI.py:208-246 | the loop over an all-false table returns the specified report, and every name it returns is one of the four reachable ones |
| `TenseAnalysis.DetectedIsUnion` | viEnAI.py:225-243 | a category is detected if and only if some token of the sentence raises it |
| `TenseAnalysis.DetectedConcat` | viEnAI.py:225-243 | flags are never lowered: the categories detected in a joined sentence are the union of those detected in its parts |
| `TenseAnalysis.ListedMembers` | viEnAI.py:245 | the final comprehension lists a category's name if and only if the category is in the table and its flag is true |
| `TenseAnalysis.ListedAreNames` | viEnAI.py:245 | everything the comprehension lists is the name of a category whose flag is true |
| `TenseAnalysis.ReportMembership` | viEnAI.py:209-245 | a category's name is in the result if and only if some rule raised that category |
| `TenseAnalysis.OnlyReachableDetected` | viEnAI.py:225-243 | only Past Simple, Present Simple, Present Continuous and Future Simple are ever raised |
| `TenseAnalysis.OnlyFourReported` | viEnAI.py:209-245 | for every input, the result names only "Past Simple", "Present Simple", "Present Continuous" or "Future Simple" |
| `TenseAnalysis.NeverReported` | viEnAI.py:209-243 | none of the other eight declared categories appears in the result, for any input |
| `TenseAnalysis.ListedIsSubsequence` | viEnAI.py:245 | the comprehension keeps the table's order: its result is a subsequence of the names in declaration order |
| `TenseAnalysis.ListedNoDuplicates` | viEnAI.py:245 | the comprehension lists no name twice |
| `TenseAnalysis.ReportIsOrderedSubset` | viEnAI.py:209-245 | the result is a duplicate-free subsequence of the twelve names in declaration order |
| `TenseAnalysis.WillMeansFuture` | viEnAI.py:233-234 | an AUX token with lemma "will" anywhere in the sentence puts "Future Simple" in the result, whatever its features |
| `TenseAnalysis.ListedSingle` | viEnAI.py:245 | when exactly one flag is true, the comprehension yields exactly its name |
| `TenseAnalysis.ListedNone` | viEnAI.py:245 | when no flag is true, the comprehension yields nothing |
| `TenseAnalysis.ReportOfOne` | viEnAI.py:225-245 | a one-token sentence reports exactly the name of the flag that token's rule raises, or nothing |
| `TenseAnalysis.PresentBeforePast` | viEnAI.py:227-240 | for an AUX "be" or a VERB, `Tense=Pres` wins: the token reports "Present Simple" only, even when it also carries `Tense=Past` |
| `TenseAnalysis.PastWithoutPresent` | viEnAI.py:227-240 | for an AUX "be" or a VERB with `Tense=Past` and without `Tense=Pres`, the token reports "Past Simple" only |
| `TenseAnalysis.BeWithoutTenseIgnored` | viEnAI.py:228-232 | an AUX "be" with neither tense feature reports nothing |
| `TenseAnalysis.PresentContinuousIff` | viEnAI.py:236-243 | "Present Continuous" is reported if and only if some VERB is the ROOT, has `Aspect=Prog`, and has neither `Tense=Pres` nor `Tense=Past` |
| `TenseAnalysis.EmptyReportIff` | viEnAI.py:225-245 | the result is empty if and only if no token raises a flag; in particular the empty sentence reports nothing |
| `TenseAnalysis.SilentSentence` | viEnAI.py:227-236 | a sentence made only of tokens that are neither AUX nor VERB, or are AUX with a lemma other than "be" and "will", reports nothing |
| `TenseAnalysis.SameTokensSameReport` | viEnAI.py:225-245 | the result depends only on which tokens occur: reordering or repeating tokens does not change it |
| `PosListing.AnalyzeSentence` | viEnAI.py:196-199 | exactly one (text, tag) pair per token, in document order |
| `PosListing.AnalyzeSentenceConcat` | viEnAI.py:198 | the listing of a joined sentence is the join of the listings |
| `PosListing.Line` | viEnAI.py:205 | the line for one pair is the word, then `": "`, the tag and `" <br>"`, so word and tag can be read back at fixed positions; it is seven characters longer than word and tag together |
| `PosListing.Rendered` | viEnAI.py:203-206 | the lines of all pairs joined in order, starting from `""`; at least seven characters per pair |
| `PosListing.VisualizeAnalysis` | viEnAI.py:201-206 | the accumulating loop returns the in-order concatenation of the `word: tag <br>` lines, and its length is that of the words and tags plus seven per pair |
| `PosListing.RenderedConcat` | viEnAI.py:203-206 | rendering the join of two pair lists gives the join of their renderings |
| `PosListing.RenderedSingle` | viEnAI.py:205 | one pair renders as `word + ": " + tag + " <br>"` |
| `PosListing.RenderedAt` | viEnAI.py:203-206 | the k-th pair's line comes after the lines of the pairs before it and before those of the pairs after it |
| `PosListing.RenderedLength` | viEnAI.py:205 | each line adds exactly seven characters of markup to its word and tag |
| `PosListing.RenderedEmptyIff` | viEnAI.py:203-206 | the rendering is `""` if and only if the pair list is empty |
| `PosListing.SliceListing` | viEnAI.py:198 | the listing of a prefix or suffix of the tokens is that prefix or suffix of the listing |
| `PosListing.ListingOfSentence` | viEnAI.py:196-206 | in the page's listing, token k's word and tag appear between those of the tokens before and after it |
| `Pages.Label` | viEnAI.py:66-74 | each page's tab label is one of the three labels "Home", "Translate", "Analyze" the selector offers |
| `Pages.PageFor` | viEnAI.py:273-280 | a tab label selects page p if and only if it is p's label; any other label selects no page |
| `Pages.LabelRoundTrip` | viEnAI.py:273-280 | each tab's label runs that tab's page |
| `Pages.AnalyzePage` | viEnAI.py:148-183 | the parser is called if and only if a translation is stored; with none stored, the page shows the "No translation available" notice; otherwise it shows the stored sentence, the rendered listing of its tokens and the tense lines of its report |
| `Pages.TenseLines` | viEnAI.py:176-180 | the tense section always shows at least one line; every detected name is shown, and nothing else except "No recognizable tense found." |
| `Pages.NoTenseNoticeIff` | viEnAI.py:173-180 | the tense section shows only "No recognizable tense found." if and only if no token raises a flag; otherwise it shows exactly the detected names |

## Left out

- Page layout, styling, images, the sidebar tag glossary and the home page's static text (viEnAI.py:14-128, 249-270): presentation only.
- The loading screen (viEnAI.py:38-45): a three-second sleep and a framework rerun.
- The translate page, `load_model` and `translate_text` (viEnAI.py:131-145, 186-194): these call a pretrained translation model. The stored translation reaches `AnalyzePage` as an `Option<string>` argument.
- Parsing and tagging, `spacy.load` and `displacy.render` (viEnAI.py:156-157, 168-169): these are an external parser. The parser is a function parameter `parse` of `AnalyzePage`, and a parsed sentence is a given `seq<Token>`. `AnalyzeView` does not include the dependency diagram.
- `Tokens.Token`: `pos` is a plain string rather than the parser's 17-value tag set, because the rules only compare it with "AUX" and "VERB".
- Streamlit session state and widget state: the model has no session lifetime. It only has the `Option<string>` gate.
- `Pages.AnalyzePage`: `parse` is assumed to succeed. Loading the parser, parsing and rendering the dependency diagram can raise (viEnAI.py:156-157, 168). The program then aborts the page after the sentence line or after the listing, and no tense lines are written. The model does not capture that abort. `AnalyzeView` also drops the page's own presentation: the title (viEnAI.py:149), the bold "Translated Sentence:" prefix (154), the `<div>` wrapper around the listing (164), and the headings (167, 172, 175).
