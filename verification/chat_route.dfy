/**
 * The chat endpoint's request handler (`POST /api/chat`): input validation,
 * intent tagging over recent history, prompt enhancement, history rendering,
 * master-prompt assembly, and the mapping of the upstream outcome (an answer,
 * a blank answer, or a thrown error) to a response envelope.
 *
 * The upstream generative-text service is not modelled: whether a model name
 * initialises is the parameter `ready`, and what the completion call yields for
 * a model and a prompt is the parameter `complete`.
 */
module ChatRoute {
  import opened Wrappers
  import opened JsText

  // ---------------------------------------------------------------------------
  // Data model
  // ---------------------------------------------------------------------------

  /** The request body: `question` and the optional `convHistory` of prior turn texts. */
  datatype Request = Request(question: string, convHistory: Option<seq<string>>)

  /** What the upstream completion call yields: answer text, or an error with a message. */
  datatype Upstream = Completed(text: string) | Threw(message: string)

  /** The JSON body of a response. */
  datatype Body =
    | Answer(response: string, contextDetected: Option<seq<Flag>>)
    | Failure(error: string, fallback: Option<string>)

  /** A response: HTTP status and JSON body. */
  datatype Envelope = Envelope(status: int, body: Body)

  /** The four intent flags, in declaration order. */
  datatype Interest = Interest(pricing: bool, features: bool, signup: bool, affiliate: bool)

  // ---------------------------------------------------------------------------
  // Constants (long texts are written as concatenations of shorter literals,
  // which keeps the verifier's reasoning about them cheap)
  // ---------------------------------------------------------------------------

  /** The persona script that opens every prompt; its body is not part of this model. */
  const Persona: string := "\U{1F3AF} ROLE: ParlayProz Virtual Assistant Expert"

  /** How many trailing history entries the intent flags look at. */
  const IntentWindow: nat := 6
  /** How many trailing history entries are rendered into the prompt. */
  const HistoryWindow: nat := 10
  /** A history longer than this asks the model to be concise. */
  const LongConversation: nat := 8

  const PricingKeywords: seq<string> := ["cost", "price", "$"]
  const FeatureKeywords: seq<string> := ["scanner", "feature", "how"]
  const SignupKeywords: seq<string> := ["sign", "join", "register"]
  const AffiliateKeywords: seq<string> := ["affiliate", "refer", "earn"]

  const ModelPriority: seq<string> := ["gemini-1.5-flash", "gemini-1.5-pro", "gemini-pro"]

  const EmptyQuestionError: string := "Question cannot be empty"
  const MissingKeyError: string := "Service temporarily unavailable." + " Please contact support."
  const NoModelError: string := "AI service unavailable. Please try again later."
  const BlankAnswerFallback: string :=
    "I'm here to help with ParlayProz questions!" + " What would you like to know about our platform?"
  const SupportFallback: string := "For immediate assistance, " + "contact us via WhatsApp or email support."

  const ContextHeader: string := "\n\n\U{1F4CA} CONVERSATION CONTEXT:\n"
  const QuestionHeader: string := "\n\n\U{1F3AF} CURRENT USER QUESTION: "
  const ResponseCue: string :=
    "\n\n\U{1F916} ASSISTANT RESPONSE " + "(Remember: MAX 2-3 sentences, be helpful and direct):"

  // ---------------------------------------------------------------------------
  // Intent tagging (analyzeConversationContext)
  // ---------------------------------------------------------------------------

  /** The message, lower-cased, includes one of the keywords. */
  predicate Mentions(msg: string, keywords: seq<string>) {
    exists k | k in keywords :: Contains(Lower(msg), k)
  }

  /** `msgs.some(msg => Mentions(msg, keywords))`. */
  function AnyMentions(msgs: seq<string>, keywords: seq<string>): (b: bool)
    ensures b <==> exists i :: 0 <= i < |msgs| && Mentions(msgs[i], keywords)
  {
    if msgs == [] then false
    else Mentions(msgs[0], keywords) || AnyMentions(msgs[1..], keywords)
  }

  /** One of the last `IntentWindow` entries of `history` mentions a keyword. */
  ghost predicate RecentlyMentioned(history: seq<string>, keywords: seq<string>) {
    exists i :: 0 <= i < |history| && |history| - IntentWindow <= i && Mentions(history[i], keywords)
  }

  lemma WindowMentions(history: seq<string>, keywords: seq<string>)
    ensures AnyMentions(Last(history, IntentWindow), keywords) <==> RecentlyMentioned(history, keywords)
  {
    var recent := Last(history, IntentWindow);
    var offset := |history| - |recent|;
    assert offset == 0 || |recent| == IntentWindow;
    if AnyMentions(recent, keywords) {
      var j :| 0 <= j < |recent| && Mentions(recent[j], keywords);
      assert recent[j] == history[offset + j];
      assert 0 <= offset + j < |history| && |history| - IntentWindow <= offset + j;
    }
    if RecentlyMentioned(history, keywords) {
      var i :| 0 <= i < |history| && |history| - IntentWindow <= i && Mentions(history[i], keywords);
      assert 0 <= i - offset < |recent|;
      assert recent[i - offset] == history[i];
    }
  }

  /** analyzeConversationContext: each flag is set iff a recent entry mentions one of its keywords. */
  function AnalyzeContext(history: seq<string>): (r: Interest)
    ensures r.pricing <==> RecentlyMentioned(history, PricingKeywords)
    ensures r.features <==> RecentlyMentioned(history, FeatureKeywords)
    ensures r.signup <==> RecentlyMentioned(history, SignupKeywords)
    ensures r.affiliate <==> RecentlyMentioned(history, AffiliateKeywords)
  {
    WindowMentions(history, PricingKeywords);
    WindowMentions(history, FeatureKeywords);
    WindowMentions(history, SignupKeywords);
    WindowMentions(history, AffiliateKeywords);
    var recent := Last(history, IntentWindow);
    Interest(
      AnyMentions(recent, PricingKeywords),
      AnyMentions(recent, FeatureKeywords),
      AnyMentions(recent, SignupKeywords),
      AnyMentions(recent, AffiliateKeywords))
  }

  /** The pricing flag spelled out with its three keywords (the other flags follow the same rule). */
  lemma PricingKeywordsSpelledOut(history: seq<string>)
    ensures AnalyzeContext(history).pricing <==>
      exists i :: 0 <= i < |history| && |history| - IntentWindow <= i &&
        (Contains(Lower(history[i]), "cost") || Contains(Lower(history[i]), "price") || Contains(Lower(history[i]), "$"))
  {
    forall m: string
      ensures Mentions(m, PricingKeywords) <==>
        (Contains(Lower(m), "cost") || Contains(Lower(m), "price") || Contains(Lower(m), "$"))
    {
      assert PricingKeywords[0] == "cost" && PricingKeywords[1] == "price" && PricingKeywords[2] == "$";
    }
  }

  /** Entries older than the last `IntentWindow` never change a flag. */
  lemma IntentIgnoresOlder(older: seq<string>, recent: seq<string>)
    requires |recent| >= IntentWindow
    ensures AnalyzeContext(older + recent) == AnalyzeContext(recent)
  {
    LastIgnoresOlder(older, recent, IntentWindow);
  }

  /** Two histories of one length that agree on their last `IntentWindow` entries get the same flags. */
  lemma IntentDependsOnWindowOnly(h1: seq<string>, h2: seq<string>)
    requires |h1| == |h2|
    requires forall i :: 0 <= i < |h1| && |h1| - IntentWindow <= i ==> h1[i] == h2[i]
    ensures AnalyzeContext(h1) == AnalyzeContext(h2)
  {
    assert Last(h1, IntentWindow) == Last(h2, IntentWindow);
  }

  // ---------------------------------------------------------------------------
  // Prompt enhancement (enhancePromptWithContext)
  // ---------------------------------------------------------------------------

  /** The bracketed directives, in the order they are appended. */
  datatype Directive = PricingHint | FeaturesHint | SignupHint | AffiliateHint | BeConcise

  function Rank(d: Directive): nat {
    match d
    case PricingHint => 0
    case FeaturesHint => 1
    case SignupHint => 2
    case AffiliateHint => 3
    case BeConcise => 4
  }

  function DirectiveText(d: Directive): (t: string)
    ensures |t| > 0
  {
    match d
    case PricingHint => "\n[CONTEXT: User interested in pricing" + " - be clear about value proposition]"
    case FeaturesHint => "\n[CONTEXT: User exploring features" + " - focus on scanner benefits]"
    case SignupHint => "\n[CONTEXT: User ready to signup" + " - provide clear next steps]"
    case AffiliateHint => "\n[CONTEXT: User interested in earning" + " - highlight affiliate benefits]"
    case BeConcise => "\n[INSTRUCTION: Keep response under 30 words" + " - user has been chatting a while]"
  }

  /** `ds` followed by `d` when `selected` holds. */
  function AddIf(ds: seq<Directive>, selected: bool, d: Directive): seq<Directive> {
    if selected then ds + [d] else ds
  }

  /** The directives the four intent flags select, in the enhancer's order. */
  function FlagDirectives(ctx: Interest): seq<Directive> {
    AddIf(AddIf(AddIf(AddIf([],
      ctx.pricing, PricingHint),
      ctx.features, FeaturesHint),
      ctx.signup, SignupHint),
      ctx.affiliate, AffiliateHint)
  }

  /** All directives selected for these flags and this full history length. */
  function Directives(ctx: Interest, historyLength: nat): seq<Directive> {
    AddIf(FlagDirectives(ctx), historyLength > LongConversation, BeConcise)
  }

  /** What `AddIf` yields holds exactly the old members and, when selected, the added one. */
  lemma AddIfMembers(ds: seq<Directive>, selected: bool, d: Directive)
    ensures forall x :: x in AddIf(ds, selected, d) <==> x in ds || (selected && x == d)
  {
  }

  /** Each directive is selected exactly when its flag is set or, for conciseness, the history is long. */
  lemma DirectivesSelected(ctx: Interest, historyLength: nat)
    ensures var ds := Directives(ctx, historyLength);
      && (PricingHint in ds <==> ctx.pricing)
      && (FeaturesHint in ds <==> ctx.features)
      && (SignupHint in ds <==> ctx.signup)
      && (AffiliateHint in ds <==> ctx.affiliate)
      && (BeConcise in ds <==> historyLength > LongConversation)
  {
    var f1 := AddIf([], ctx.pricing, PricingHint);
    var f2 := AddIf(f1, ctx.features, FeaturesHint);
    var f3 := AddIf(f2, ctx.signup, SignupHint);
    AddIfMembers([], ctx.pricing, PricingHint);
    AddIfMembers(f1, ctx.features, FeaturesHint);
    AddIfMembers(f2, ctx.signup, SignupHint);
    AddIfMembers(f3, ctx.affiliate, AffiliateHint);
    AddIfMembers(FlagDirectives(ctx), historyLength > LongConversation, BeConcise);
  }

  /** Ranks strictly increase along `ds`. */
  ghost predicate InRankOrder(ds: seq<Directive>) {
    forall i, j :: 0 <= i < j < |ds| ==> Rank(ds[i]) < Rank(ds[j])
  }

  /** Appending a directive that outranks everything already present keeps the rank order. */
  lemma AddIfKeepsOrder(ds: seq<Directive>, selected: bool, d: Directive)
    requires InRankOrder(ds)
    requires forall i :: 0 <= i < |ds| ==> Rank(ds[i]) < Rank(d)
    ensures InRankOrder(AddIf(ds, selected, d))
    ensures forall i :: 0 <= i < |AddIf(ds, selected, d)| ==> Rank(AddIf(ds, selected, d)[i]) <= Rank(d)
  {
  }

  /** The selected directives come in the fixed order pricing, features, signup, affiliate, conciseness. */
  lemma DirectivesInRankOrder(ctx: Interest, historyLength: nat)
    ensures InRankOrder(Directives(ctx, historyLength))
  {
    var f1 := AddIf([], ctx.pricing, PricingHint);
    var f2 := AddIf(f1, ctx.features, FeaturesHint);
    var f3 := AddIf(f2, ctx.signup, SignupHint);
    AddIfKeepsOrder([], ctx.pricing, PricingHint);
    AddIfKeepsOrder(f1, ctx.features, FeaturesHint);
    AddIfKeepsOrder(f2, ctx.signup, SignupHint);
    AddIfKeepsOrder(f3, ctx.affiliate, AffiliateHint);
    AddIfKeepsOrder(FlagDirectives(ctx), historyLength > LongConversation, BeConcise);
  }

  /** The directives' texts, one after another. */
  function Render(ds: seq<Directive>): string {
    if ds == [] then "" else DirectiveText(ds[0]) + Render(ds[1..])
  }

  lemma {:induction false} RenderSnoc(ds: seq<Directive>, d: Directive)
    ensures Render(ds + [d]) == Render(ds) + DirectiveText(d)
  {
    if ds != [] {
      assert (ds + [d])[1..] == ds[1..] + [d];
      RenderSnoc(ds[1..], d);
    }
  }

  /** Every directive has text, so only the empty list renders to nothing. */
  lemma RenderEmptyIff(ds: seq<Directive>)
    ensures Render(ds) == [] <==> ds == []
  {
    if ds != [] {
      assert |Render(ds)| >= |DirectiveText(ds[0])|;
    }
  }

  /**
   * The enhanced question: the base question followed by the texts of the selected directives,
   * in rank order.
   */
  function EnhancedQuestion(question: string, ctx: Interest, history: seq<string>): string {
    question + Render(Directives(ctx, |history|))
  }

  /** `s` followed by the text of `d` when `selected` holds: one `if (...) enhancedPrompt += ...`. */
  function AppendIf(s: string, selected: bool, d: Directive): string {
    if selected then s + DirectiveText(d) else s
  }

  /** One conditional `+=` extends the question by the rendering of one more selected directive. */
  lemma AppendIfRenders(question: string, e: string, ds: seq<Directive>, selected: bool, d: Directive)
    requires e == question + Render(ds)
    ensures AppendIf(e, selected, d) == question + Render(AddIf(ds, selected, d))
  {
    if selected {
      RenderSnoc(ds, d);
      AppendAssociates(question, Render(ds), DirectiveText(d));
    }
  }

  /** Five conditional `+=` steps append exactly the rendering of the directives they select. */
  lemma {:induction false} AppendChainRenders(question: string,
      c1: bool, d1: Directive, c2: bool, d2: Directive, c3: bool, d3: Directive,
      c4: bool, d4: Directive, c5: bool, d5: Directive)
    ensures AppendIf(AppendIf(AppendIf(AppendIf(AppendIf(question, c1, d1), c2, d2), c3, d3), c4, d4), c5, d5)
      == question + Render(AddIf(AddIf(AddIf(AddIf(AddIf([], c1, d1), c2, d2), c3, d3), c4, d4), c5, d5))
  {
    var e1 := AppendIf(question, c1, d1);
    var e2 := AppendIf(e1, c2, d2);
    var e3 := AppendIf(e2, c3, d3);
    var e4 := AppendIf(e3, c4, d4);
    var s1 := AddIf([], c1, d1);
    var s2 := AddIf(s1, c2, d2);
    var s3 := AddIf(s2, c3, d3);
    var s4 := AddIf(s3, c4, d4);
    assert question == question + Render([]);
    AppendIfRenders(question, question, [], c1, d1);
    AppendIfRenders(question, e1, s1, c2, d2);
    AppendIfRenders(question, e2, s2, c3, d3);
    AppendIfRenders(question, e3, s3, c4, d4);
    AppendIfRenders(question, e4, s4, c5, d5);
  }

  /**
   * enhancePromptWithContext: starting from the base question, each set flag appends its directive
   * in the source's order; each conditional append is one `AppendIf` step, so the result is the base
   * question followed by the selected directives.
   */
  method EnhancePrompt(baseQuestion: string, ctx: Interest, history: seq<string>) returns (enhanced: string)
    ensures enhanced == EnhancedQuestion(baseQuestion, ctx, history)
  {
    enhanced := baseQuestion;
    if ctx.pricing {
      enhanced := enhanced + DirectiveText(PricingHint);
    }
    ghost var e1 := enhanced;
    assert e1 == AppendIf(baseQuestion, ctx.pricing, PricingHint);
    if ctx.features {
      enhanced := enhanced + DirectiveText(FeaturesHint);
    }
    ghost var e2 := enhanced;
    assert e2 == AppendIf(e1, ctx.features, FeaturesHint);
    if ctx.signup {
      enhanced := enhanced + DirectiveText(SignupHint);
    }
    ghost var e3 := enhanced;
    assert e3 == AppendIf(e2, ctx.signup, SignupHint);
    if ctx.affiliate {
      enhanced := enhanced + DirectiveText(AffiliateHint);
    }
    ghost var e4 := enhanced;
    assert e4 == AppendIf(e3, ctx.affiliate, AffiliateHint);
    if |history| > LongConversation {
      enhanced := enhanced + DirectiveText(BeConcise);
    }
    assert enhanced == AppendIf(e4, |history| > LongConversation, BeConcise);
    AppendChainRenders(baseQuestion, ctx.pricing, PricingHint, ctx.features, FeaturesHint,
      ctx.signup, SignupHint, ctx.affiliate, AffiliateHint, |history| > LongConversation, BeConcise);
  }

  /** The question is always a prefix; it comes back unchanged exactly when no flag is set and the history is short. */
  lemma EnhancedQuestionShape(question: string, ctx: Interest, history: seq<string>)
    ensures var e := EnhancedQuestion(question, ctx, history);
      && |e| >= |question| && e[..|question|] == question
      && (e == question <==> !ctx.pricing && !ctx.features && !ctx.signup && !ctx.affiliate && |history| <= LongConversation)
  {
    var ds := Directives(ctx, |history|);
    RenderEmptyIff(ds);
    DirectivesSelected(ctx, |history|);
    AppendParts(question, Render(ds));
  }

  /** With a history longer than 8 entries the enhanced question ends with the conciseness directive. */
  lemma ConciseDirectiveLast(question: string, ctx: Interest, history: seq<string>)
    requires |history| > LongConversation
    ensures var e := EnhancedQuestion(question, ctx, history);
      var c := DirectiveText(BeConcise);
      |e| >= |c| && e[|e| - |c|..] == c
  {
    var flagged := question + Render(FlagDirectives(ctx));
    RenderSnoc(FlagDirectives(ctx), BeConcise);
    AppendAssociates(question, Render(FlagDirectives(ctx)), DirectiveText(BeConcise));
    AppendParts(flagged, DirectiveText(BeConcise));
  }

  // ---------------------------------------------------------------------------
  // History rendering and the master prompt
  // ---------------------------------------------------------------------------

  /** The speaker label of the line at position `i` of the rendered window. */
  function Label(i: nat): string {
    if i % 2 == 0 then "User" else "Assistant"
  }

  /** `entries.map((msg, index) => label + ": " + msg)`, with indices counted from `first`. */
  function LabelLines(entries: seq<string>, first: nat): (lines: seq<string>)
    ensures |lines| == |entries|
    ensures forall i :: 0 <= i < |entries| ==> lines[i] == Label(first + i) + ": " + entries[i]
  {
    if entries == [] then []
    else [Label(first) + ": " + entries[0]] + LabelLines(entries[1..], first + 1)
  }

  /** The lines of the rendered history: the last `HistoryWindow` entries, labelled by position parity. */
  function HistoryLines(history: seq<string>): (lines: seq<string>)
    ensures |lines| == if |history| <= HistoryWindow then |history| else HistoryWindow
    ensures forall i :: 0 <= i < |lines| ==>
      lines[i] == Label(i) + ": " + history[|history| - |lines| + i]
  {
    var recent := Last(history, HistoryWindow);
    var lines := LabelLines(recent, 0);
    assert forall i :: 0 <= i < |lines| ==> lines[i] == Label(i) + ": " + recent[i];
    lines
  }

  /**
   * The rendered history: its lines joined by newlines. It is empty exactly when the history is,
   * and it opens with the first line and closes with the last.
   */
  function FormatHistory(history: seq<string>): (r: string)
    ensures r == [] <==> history == []
    ensures var lines := HistoryLines(history);
      lines != [] ==>
        && |r| >= |lines[0]| && r[..|lines[0]|] == lines[0]
        && |r| >= |lines[|lines| - 1]| && r[|r| - |lines[|lines| - 1]|..] == lines[|lines| - 1]
  {
    var lines := HistoryLines(history);
    assert lines != [] ==> |lines[0]| >= 2;
    Join(lines, "\n")
  }

  /** Consecutive lines carry different labels. */
  lemma LabelAlternates(i: nat)
    ensures Label(i) != Label(i + 1)
  {
    if i % 2 == 0 {
      assert Label(i + 1) == "Assistant";
    } else {
      assert Label(i + 1) == "User";
    }
  }

  /**
   * Labels follow position, not origin: once the window is full, one more entry shifts every
   * surviving entry by one line, and its label flips between "User" and "Assistant".
   */
  lemma LabelFlipsWhenWindowSlides(history: seq<string>, next: string, i: nat)
    requires |history| >= HistoryWindow && i < HistoryWindow - 1
    ensures HistoryLines(history)[i + 1] == Label(i + 1) + ": " + history[|history| - 9 + i]
    ensures HistoryLines(history + [next])[i] == Label(i) + ": " + history[|history| - 9 + i]
    ensures Label(i) != Label(i + 1)
  {
    var h2 := history + [next];
    var k := |history| - 9 + i;
    var lines := HistoryLines(history);
    var lines2 := HistoryLines(h2);
    assert |lines| == HistoryWindow && |lines2| == HistoryWindow;
    assert lines[i + 1] == Label(i + 1) + ": " + history[k];
    assert h2[k] == history[k];
    assert lines2[i] == Label(i) + ": " + h2[k];
    LabelAlternates(i);
  }

  /** The master prompt: persona, rendered history and enhanced question at fixed places. */
  function MasterPrompt(persona: string, formattedHistory: string, question: string): (p: string)
    ensures |p| == |persona| + |ContextHeader| + |formattedHistory| + |QuestionHeader| + |question| + |ResponseCue|
    ensures p[..|persona|] == persona
    ensures p[|persona| + |ContextHeader|..|persona| + |ContextHeader| + |formattedHistory|] == formattedHistory
    ensures p[|p| - |ResponseCue| - |question|..|p| - |ResponseCue|] == question
    ensures p[|p| - |ResponseCue|..] == ResponseCue
  {
    persona + ContextHeader + formattedHistory + QuestionHeader + question + ResponseCue
  }

  /**
   * The prompt sent upstream for a question and a history: the persona, the rendered history and
   * the question enhanced with the history's intent flags, at the master prompt's places.
   */
  function BuildPrompt(question: string, history: seq<string>): (p: string)
    ensures var f := FormatHistory(history);
      var e := EnhancedQuestion(question, AnalyzeContext(history), history);
      && |p| == |Persona| + |ContextHeader| + |f| + |QuestionHeader| + |e| + |ResponseCue|
      && p[..|Persona|] == Persona
      && p[|Persona| + |ContextHeader|..|Persona| + |ContextHeader| + |f|] == f
      && p[|p| - |ResponseCue| - |e|..|p| - |ResponseCue|] == e
  {
    var ctx := AnalyzeContext(history);
    MasterPrompt(Persona, FormatHistory(history), EnhancedQuestion(question, ctx, history))
  }

  /** Turns older than the last `HistoryWindow` never reach the prompt. */
  lemma PromptIgnoresOlder(question: string, older: seq<string>, recent: seq<string>)
    requires |recent| >= HistoryWindow
    ensures BuildPrompt(question, older + recent) == BuildPrompt(question, recent)
  {
    LastIgnoresOlder(older, recent, HistoryWindow);
    IntentIgnoresOlder(older, recent);
  }

  // ---------------------------------------------------------------------------
  // Model selection (the modelPriority loop)
  // ---------------------------------------------------------------------------

  /** The first name in `names` whose model initialises, if any. */
  function FirstReady(names: seq<string>, ready: string -> bool): (r: Option<nat>)
    ensures r.None? <==> forall i :: 0 <= i < |names| ==> !ready(names[i])
    ensures r.Some? ==> r.value < |names| && ready(names[r.value])
    ensures r.Some? ==> forall i :: 0 <= i < r.value ==> !ready(names[i])
  {
    if names == [] then None
    else if ready(names[0]) then Some(0)
    else match FirstReady(names[1..], ready)
      case None => None
      case Some(k) => Some(k + 1)
  }

  /** The `for ... break` loop over `ModelPriority`: the first model that initialises wins. */
  method SelectModel(ready: string -> bool) returns (model: Option<string>)
    ensures model.None? <==> FirstReady(ModelPriority, ready).None?
    ensures model.Some? ==> model.value == ModelPriority[FirstReady(ModelPriority, ready).value]
  {
    model := None;
    var i := 0;
    while i < |ModelPriority|
      invariant 0 <= i <= |ModelPriority|
      invariant forall j :: 0 <= j < i ==> !ready(ModelPriority[j])
    {
      if ready(ModelPriority[i]) {
        model := Some(ModelPriority[i]);
        return;
      }
      i := i + 1;
    }
  }

  // ---------------------------------------------------------------------------
  // Error classification (the catch block)
  // ---------------------------------------------------------------------------

  datatype ErrorKind = Credential | Quota | Network | Generic

  /** Precedence of the categories: a message that matches several gets the highest. */
  function Severity(k: ErrorKind): nat {
    match k
    case Credential => 3
    case Quota => 2
    case Network => 1
    case Generic => 0
  }

  /** The category an error message falls into, by case-sensitive substring match. */
  function Categorize(message: string): (k: ErrorKind)
    ensures k == Credential <==> Contains(message, "API key")
    ensures k == Quota <==>
      !Contains(message, "API key") && (Contains(message, "quota") || Contains(message, "rate limit"))
    ensures k == Network <==>
      !Contains(message, "API key") && !Contains(message, "quota") && !Contains(message, "rate limit")
      && (Contains(message, "network") || Contains(message, "timeout"))
  {
    if Contains(message, "API key") then Credential
    else if Contains(message, "quota") || Contains(message, "rate limit") then Quota
    else if Contains(message, "network") || Contains(message, "timeout") then Network
    else Generic
  }

  /** The status sent for each category: always a client or server error, never 200. */
  function KindStatus(k: ErrorKind): (s: int)
    ensures 400 <= s < 600
    ensures s in {429, 500, 502, 503}
  {
    match k
    case Credential => 503
    case Quota => 429
    case Network => 502
    case Generic => 500
  }

  /** The message shown for each category; none of them is blank. */
  function KindMessage(k: ErrorKind): (m: string)
    ensures !IsBlank(m)
  {
    match k
    case Credential => "Service configuration issue." + " Please contact support."
    case Quota => "High demand right now." + " Please try again in a few seconds."
    case Network => "Connection issue." + " Please check your internet and try again."
    case Generic => "I'm experiencing technical difficulties." + " Please try again in a moment."
  }

  /** The catch block: starts from the generic reply and overwrites it with the first matching category. */
  method ClassifyError(message: string) returns (statusCode: int, userMessage: string)
    ensures statusCode == KindStatus(Categorize(message))
    ensures userMessage == KindMessage(Categorize(message))
  {
    userMessage := KindMessage(Generic);
    statusCode := 500;
    if Contains(message, "API key") {
      userMessage := KindMessage(Credential);
      statusCode := 503;
    } else if Contains(message, "quota") || Contains(message, "rate limit") {
      userMessage := KindMessage(Quota);
      statusCode := 429;
    } else if Contains(message, "network") || Contains(message, "timeout") {
      userMessage := KindMessage(Network);
      statusCode := 502;
    }
  }

  /** Wrapping an error message in more text can only move it to a higher-precedence category. */
  lemma CategorizeEscalates(before: string, message: string, after: string)
    ensures Severity(Categorize(before + message + after)) >= Severity(Categorize(message))
  {
    var keys := ["API key", "quota", "rate limit", "network", "timeout"];
    forall k | k in keys && Contains(message, k)
      ensures Contains(before + message + after, k)
    {
      ContainsWithin(before, message, after, k);
    }
  }

  /** The status code alone determines the category, hence the user-facing message. */
  lemma StatusDeterminesMessage(k1: ErrorKind, k2: ErrorKind)
    requires KindStatus(k1) == KindStatus(k2)
    ensures k1 == k2 && KindMessage(k1) == KindMessage(k2)
  {
  }

  // ---------------------------------------------------------------------------
  // The handler (POST)
  // ---------------------------------------------------------------------------

  /** The keys of the intent-flag object, in declaration order. */
  datatype Flag = Pricing | Features | Signup | Affiliate

  /** The key's spelling in the response metadata. */
  function Key(f: Flag): string {
    match f
    case Pricing => "pricing"
    case Features => "features"
    case Signup => "signup"
    case Affiliate => "affiliate"
  }

  /** Position of a key in the declaration of the flag object. */
  function Ordinal(f: Flag): nat {
    match f
    case Pricing => 0
    case Features => 1
    case Signup => 2
    case Affiliate => 3
  }

  /** `Object.keys(userInterest)`. */
  const FlagKeys: seq<Flag> := [Pricing, Features, Signup, Affiliate]

  /** `userInterest[key]`. */
  function IsSet(ctx: Interest, f: Flag): bool {
    match f
    case Pricing => ctx.pricing
    case Features => ctx.features
    case Signup => ctx.signup
    case Affiliate => ctx.affiliate
  }

  /** Keys occur in declaration order. */
  ghost predicate InKeyOrder(fs: seq<Flag>) {
    forall i, j :: 0 <= i < j < |fs| ==> Ordinal(fs[i]) < Ordinal(fs[j])
  }

  /** A key placed before keys that all come later in the declaration keeps the order. */
  lemma ConsInKeyOrder(k: Flag, rest: seq<Flag>)
    requires InKeyOrder(rest)
    requires forall f :: f in rest ==> Ordinal(k) < Ordinal(f)
    ensures InKeyOrder([k] + rest)
  {
    var r := [k] + rest;
    forall i, j | 0 <= i < j < |r|
      ensures Ordinal(r[i]) < Ordinal(r[j])
    {
      assert r[j] == rest[j - 1];
      if i > 0 {
        assert r[i] == rest[i - 1];
      }
    }
  }

  /** `keys.filter(key => userInterest[key])`: the set keys, keeping their relative order. */
  function SetKeys(ctx: Interest, keys: seq<Flag>): (r: seq<Flag>)
    ensures forall f :: f in r <==> f in keys && IsSet(ctx, f)
    ensures InKeyOrder(keys) ==> InKeyOrder(r)
  {
    if keys == [] then []
    else
      var rest := SetKeys(ctx, keys[1..]);
      assert forall f :: f in keys <==> f == keys[0] || f in keys[1..];
      if IsSet(ctx, keys[0]) then
        assert InKeyOrder(keys) ==> InKeyOrder([keys[0]] + rest) by {
          if InKeyOrder(keys) {
            forall f | f in rest
              ensures Ordinal(keys[0]) < Ordinal(f)
            {
              var j :| 0 <= j < |keys[1..]| && keys[1..][j] == f;
              assert keys[j + 1] == f;
            }
            assert InKeyOrder(keys[1..]);
            ConsInKeyOrder(keys[0], rest);
          }
        }
        [keys[0]] + rest
      else
        assert InKeyOrder(keys) ==> InKeyOrder(keys[1..]);
        rest
  }

  /** The metadata's `contextDetected`: exactly the set flags, in declaration order. */
  function DetectedFlags(ctx: Interest): (r: seq<Flag>)
    ensures forall f :: f in r <==> IsSet(ctx, f)
    ensures InKeyOrder(r)
  {
    forall f: Flag
      ensures f in FlagKeys
    {
      assert FlagKeys[Ordinal(f)] == f;
    }
    SetKeys(ctx, FlagKeys)
  }

  /** The fallback reply for a blank answer is itself not blank. */
  lemma FallbackNotBlank()
    ensures !IsBlank(BlankAnswerFallback)
  {
    assert !IsSpace(BlankAnswerFallback[0]);
  }

  /**
   * The part of POST after the upstream call: a thrown error is classified, a blank answer is
   * replaced by the fallback, and any other answer is trimmed and sent with the detected flags.
   */
  function Respond(outcome: Upstream, history: seq<string>): (r: Envelope)
    ensures r.status in {200, 429, 500, 502, 503}
    ensures r.status == 200 <==> r.body.Answer?
    ensures r.body.Answer? ==> !IsBlank(r.body.response)
    ensures outcome.Threw? ==>
      && r.status == KindStatus(Categorize(outcome.message))
      && r.body == Failure(KindMessage(Categorize(outcome.message)), Some(SupportFallback))
    ensures outcome.Completed? && IsBlank(outcome.text) ==> r == Envelope(200, Answer(BlankAnswerFallback, None))
    ensures outcome.Completed? && !IsBlank(outcome.text) ==>
      r == Envelope(200, Answer(Trim(outcome.text), Some(DetectedFlags(AnalyzeContext(history)))))
  {
    match outcome
    case Threw(message) =>
      var k := Categorize(message);
      Envelope(KindStatus(k), Failure(KindMessage(k), Some(SupportFallback)))
    case Completed(text) =>
      var answer := Trim(text);
      if answer == [] then
        FallbackNotBlank();
        Envelope(200, Answer(BlankAnswerFallback, None))
      else
        TrimNotBlank(text);
        Envelope(200, Answer(answer, Some(DetectedFlags(AnalyzeContext(history)))))
  }

  /**
   * The part of POST after validation: the first model that initialises is sent the prompt built
   * from the question and the history, and its outcome is mapped to an envelope; with no model
   * the request fails with 503.
   */
  function Generate(question: string, history: seq<string>, ready: string -> bool, complete: (string, string) -> Upstream): (r: Envelope)
    ensures r.status in {200, 429, 500, 502, 503}
    ensures r.status == 200 <==> r.body.Answer?
    ensures r.body.Answer? ==> !IsBlank(r.body.response)
    ensures r.body.Failure? && r.body.fallback.Some? ==> r.body.fallback.value == SupportFallback
    ensures FirstReady(ModelPriority, ready).None? ==> r == Envelope(503, Failure(NoModelError, None))
    ensures FirstReady(ModelPriority, ready).Some? ==>
      var model := ModelPriority[FirstReady(ModelPriority, ready).value];
      r == Respond(complete(model, BuildPrompt(question, history)), history)
  {
    match FirstReady(ModelPriority, ready)
    case None => Envelope(503, Failure(NoModelError, None))
    case Some(m) => Respond(complete(ModelPriority[m], BuildPrompt(question, history)), history)
  }

  /**
   * POST: validates the question, checks the credential, and hands a valid request to `Generate`
   * with `convHistory` defaulting to empty.
   */
  function Handle(req: Request, hasKey: bool, ready: string -> bool, complete: (string, string) -> Upstream): (r: Envelope)
    ensures r.status in {200, 400, 429, 500, 502, 503}
    ensures r.status == 200 <==> r.body.Answer?
    ensures r.body.Answer? ==> !IsBlank(r.body.response)
    ensures r.body.Failure? && r.body.fallback.Some? ==> r.body.fallback.value == SupportFallback
    ensures IsBlank(req.question) ==> r == Envelope(400, Failure(EmptyQuestionError, None))
    ensures !IsBlank(req.question) && !hasKey ==> r == Envelope(500, Failure(MissingKeyError, None))
    ensures !IsBlank(req.question) && hasKey && FirstReady(ModelPriority, ready).None? ==>
      r == Envelope(503, Failure(NoModelError, None))
    ensures !IsBlank(req.question) && hasKey && FirstReady(ModelPriority, ready).Some? ==>
      var history := req.convHistory.GetOr([]);
      var model := ModelPriority[FirstReady(ModelPriority, ready).value];
      r == Respond(complete(model, BuildPrompt(req.question, history)), history)
  {
    if IsBlank(req.question) then Envelope(400, Failure(EmptyQuestionError, None))
    else if !hasKey then Envelope(500, Failure(MissingKeyError, None))
    else Generate(req.question, req.convHistory.GetOr([]), ready, complete)
  }

  /** The history reaches the response only through its intent flags. */
  lemma RespondDependsOnIntent(outcome: Upstream, h1: seq<string>, h2: seq<string>)
    requires AnalyzeContext(h1) == AnalyzeContext(h2)
    ensures Respond(outcome, h1) == Respond(outcome, h2)
  {
  }

  /** An absent `convHistory` is handled exactly as an empty one. */
  lemma HandleDefaultsHistory(question: string, hasKey: bool, ready: string -> bool, complete: (string, string) -> Upstream)
    ensures Handle(Request(question, None), hasKey, ready, complete)
      == Handle(Request(question, Some([])), hasKey, ready, complete)
  {
  }

  /** Turns older than the last `HistoryWindow` change neither the prompt nor the response. */
  lemma HandleIgnoresOlder(question: string, older: seq<string>, recent: seq<string>,
      hasKey: bool, ready: string -> bool, complete: (string, string) -> Upstream)
    requires |recent| >= HistoryWindow
    ensures Handle(Request(question, Some(older + recent)), hasKey, ready, complete)
      == Handle(Request(question, Some(recent)), hasKey, ready, complete)
  {
    var history := older + recent;
    var r1 := Handle(Request(question, Some(history)), hasKey, ready, complete);
    var r2 := Handle(Request(question, Some(recent)), hasKey, ready, complete);
    if !IsBlank(question) && hasKey && FirstReady(ModelPriority, ready).Some? {
      var model := ModelPriority[FirstReady(ModelPriority, ready).value];
      PromptIgnoresOlder(question, older, recent);
      IntentIgnoresOlder(older, recent);
      var outcome := complete(model, BuildPrompt(question, recent));
      RespondDependsOnIntent(outcome, history, recent);
      assert r1 == Respond(outcome, history);
      assert r2 == Respond(outcome, recent);
    }
  }
}
