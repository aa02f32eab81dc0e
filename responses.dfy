/** The chat widget's reply engine: a pure classifier from a user utterance to
    one of six canned replies, by case-insensitive keyword matching with
    first-match-wins priority. */
module Responses {
  import opened Text

  /** The six keys of the predefined response table. */
  datatype Reply = Registration | Cme | Contact | Fees | Documents | Default

  /** The predefined response table. */
  const RegistrationText: string := "For medical registration, please visit our Online Services section. You'll need your qualification certificates, identity proof, and registration fee. The process typically takes 15-30 days for completion."
  const CmeText: string := "CME (Continuing Medical Education) programs are mandatory for all registered practitioners. You can register for upcoming CME events through our CME Registration portal. We offer both online and offline programs throughout the year."
  const ContactText: string := "You can reach us at:\n\U{1F4DE} Phone: +91-863-2340116\n\U{1F4E7} Email: apmcvjw@gmail.com\n\U{1F3E2} Address: APMC Building, Vijayawada, Andhra Pradesh\n\U{23F0} Office Hours: 9:30 AM - 5:30 PM (Mon-Fri)"
  const FeesText: string := "Registration fees vary by category:\n\U{2022} MBBS Fresh Registration: \U{20B9}2,000\n\U{2022} MBBS Renewal: \U{20B9}1,000\n\U{2022} PG Fresh Registration: \U{20B9}3,000\n\U{2022} PG Renewal: \U{20B9}1,500\n\U{2022} Specialist Registration: \U{20B9}5,000\nFees can be paid online or at our office."
  const DocumentsText: string := "Required documents for registration:\n\U{2022} Original degree certificate\n\U{2022} Internship completion certificate\n\U{2022} Character certificate\n\U{2022} Identity proof (Aadhar/Passport)\n\U{2022} Recent passport size photographs\n\U{2022} Registration fee receipt"
  const DefaultText: string := "I understand you're looking for information. Here are some common topics I can help with:\n\U{2022} Medical Registration\n\U{2022} CME Programs\n\U{2022} Contact Information\n\U{2022} Fee Structure\n\U{2022} Required Documents\n\nPlease specify what you'd like to know more about!"

  /** The canned text stored under each key. */
  function ReplyText(r: Reply): string {
    match r
    case Registration => RegistrationText
    case Cme => CmeText
    case Contact => ContactText
    case Fees => FeesText
    case Documents => DocumentsText
    case Default => DefaultText
  }

  /** The six texts are pairwise different, so a reply text determines its
      key: the engine returns exactly one of six distinct strings. */
  lemma ReplyTextInjective(a: Reply, b: Reply)
    ensures ReplyText(a) == ReplyText(b) <==> a == b
  {
  }

  /** `getBotResponse`: lowercase the utterance, then try the keyword groups in
      order; the first group with a keyword that occurs wins. */
  function GetBotResponse(userMessage: string): Reply {
    var lower := Lower(userMessage);
    if Contains(lower, "registration") || Contains(lower, "register") then Registration
    else if Contains(lower, "cme") || Contains(lower, "education") then Cme
    else if Contains(lower, "contact") || Contains(lower, "phone") || Contains(lower, "address") then Contact
    else if Contains(lower, "fee") || Contains(lower, "cost") || Contains(lower, "payment") then Fees
    else if Contains(lower, "document") || Contains(lower, "certificate") then Documents
    else Default
  }

  // ---------------------------------------------------------------------------
  // The same classifier as an ordered rule table

  /** One rule: if any of its keywords occurs, its reply is chosen. */
  datatype Rule = Rule(keywords: seq<string>, reply: Reply)

  /** The five rules of `getBotResponse`, highest priority first. */
  const Rules: seq<Rule> := [
    Rule(["registration", "register"], Registration),
    Rule(["cme", "education"], Cme),
    Rule(["contact", "phone", "address"], Contact),
    Rule(["fee", "cost", "payment"], Fees),
    Rule(["document", "certificate"], Documents)
  ]

  predicate Matches(text: string, rule: Rule) {
    exists k :: 0 <= k < |rule.keywords| && Contains(text, rule.keywords[k])
  }

  /** Position of the first rule that matches, or `|rules|` when none does. */
  function FirstMatchIndex(rules: seq<Rule>, text: string): (i: nat)
    ensures i <= |rules|
    ensures i < |rules| ==> Matches(text, rules[i])
    ensures forall j :: 0 <= j < i ==> !Matches(text, rules[j])
  {
    if rules == [] then 0
    else if Matches(text, rules[0]) then 0
    else 1 + FirstMatchIndex(rules[1..], text)
  }

  /** First match wins; the default reply when no rule matches. */
  function Classify(rules: seq<Rule>, text: string): Reply {
    var i := FirstMatchIndex(rules, text);
    if i < |rules| then rules[i].reply else Default
  }

  /** The first-match index is the only index that matches with no earlier
      match. */
  lemma FirstMatchUnique(rules: seq<Rule>, text: string, i: nat)
    requires i <= |rules|
    requires i < |rules| ==> Matches(text, rules[i])
    requires forall j :: 0 <= j < i ==> !Matches(text, rules[j])
    ensures FirstMatchIndex(rules, text) == i
  {
  }

  /** Step of CascadeIsFirstMatch: a two-keyword rule matches iff one of its keywords occurs. */
  lemma MatchesTwo(text: string, rule: Rule)
    requires |rule.keywords| == 2
    ensures Matches(text, rule) <==> Contains(text, rule.keywords[0]) || Contains(text, rule.keywords[1])
  {
  }

  /** Step of CascadeIsFirstMatch: a three-keyword rule matches iff one of its keywords occurs. */
  lemma MatchesThree(text: string, rule: Rule)
    requires |rule.keywords| == 3
    ensures Matches(text, rule) <==>
      Contains(text, rule.keywords[0]) || Contains(text, rule.keywords[1]) || Contains(text, rule.keywords[2])
  {
  }

  /** The cascade of `if`s and the rule table agree on every utterance. */
  lemma CascadeIsFirstMatch(userMessage: string)
    ensures GetBotResponse(userMessage) == Classify(Rules, Lower(userMessage))
  {
    var t := Lower(userMessage);
    MatchesTwo(t, Rules[0]);
    MatchesTwo(t, Rules[1]);
    MatchesThree(t, Rules[2]);
    MatchesThree(t, Rules[3]);
    MatchesTwo(t, Rules[4]);
  }

  // ---------------------------------------------------------------------------
  // Properties of the classifier

  /** Whatever other keywords occur, a registration keyword wins. */
  lemma RegistrationFirst(userMessage: string)
    requires Contains(Lower(userMessage), "registration") || Contains(Lower(userMessage), "register")
    ensures GetBotResponse(userMessage) == Registration
  {
  }

  /** Matching is case-insensitive: any spelling `w` of a registration keyword,
      in any letter case, occurring in the utterance selects the registration
      reply. */
  lemma RegistrationAnyCase(userMessage: string, w: string)
    requires Contains(userMessage, w)
    requires Lower(w) == "registration" || Lower(w) == "register"
    ensures GetBotResponse(userMessage) == Registration
  {
    ContainsLower(userMessage, w);
  }

  /** Utterances that agree up to letter case get the same reply; in particular
      lowercasing the utterance first changes nothing. */
  lemma CaseInsensitive(s: string, t: string)
    requires Lower(s) == Lower(t)
    ensures GetBotResponse(s) == GetBotResponse(t)
    ensures GetBotResponse(Lower(s)) == GetBotResponse(s)
  {
    LowerIdempotent(s);
  }

  /** First match wins, all the way down the chain: when rule `i` matches and no
      earlier rule does, rule `i`'s reply is returned, whatever later rules
      would also match. */
  lemma RuleWins(userMessage: string, i: nat)
    requires i < |Rules|
    requires Matches(Lower(userMessage), Rules[i])
    requires forall j :: 0 <= j < i ==> !Matches(Lower(userMessage), Rules[j])
    ensures GetBotResponse(userMessage) == Rules[i].reply
  {
    CascadeIsFirstMatch(userMessage);
    FirstMatchUnique(Rules, Lower(userMessage), i);
  }

  /** A CME keyword without a registration keyword gives the CME reply, even
      when a fee keyword also occurs. */
  lemma CmeBeforeFees(userMessage: string)
    requires Contains(Lower(userMessage), "cme") || Contains(Lower(userMessage), "education")
    requires !Contains(Lower(userMessage), "registration") && !Contains(Lower(userMessage), "register")
    ensures GetBotResponse(userMessage) == Cme
  {
  }

  /** "Tell me about CME fees": CME wins over fees. */
  lemma CmeFeesExample(s: string)
    requires s == "Tell me about CME fees"
    ensures GetBotResponse(s) == Cme
  {
    CmeFeesHasCme(s);
    CmeFeesHasNoRegistration(s);
    CmeBeforeFees(s);
  }

  lemma CmeFeesHasCme(s: string)
    requires s == "Tell me about CME fees"
    ensures Contains(Lower(s), "cme")
  {
    var t := Lower(s);
    assert t[14] == 'c' && t[15] == 'm' && t[16] == 'e';
    ContainsAt(t, "cme", 14);
  }

  /** Neither registration keyword can occur: the utterance has no 'g'. */
  lemma CmeFeesHasNoRegistration(s: string)
    requires s == "Tell me about CME fees"
    ensures !Contains(Lower(s), "registration") && !Contains(Lower(s), "register")
  {
    LowerMissingChar(s, 'g');
    MissingCharNotContained(Lower(s), "registration", 'g');
    MissingCharNotContained(Lower(s), "register", 'g');
  }

  /** Matching is by substring, not by word: "deregister" contains
      "register". */
  lemma DeregisterExample(s: string)
    requires s == "How do I deregister?"
    ensures GetBotResponse(s) == Registration
  {
    var t := Lower(s);
    assert t[11..19] == "register";
    ContainsAt(t, "register", 11);
  }

  /** All keywords of a rule table, in rule order. */
  function KeywordsOf(rules: seq<Rule>): (ks: seq<string>)
    ensures forall r, w :: r in rules && w in r.keywords ==> w in ks
    ensures forall w :: w in ks ==> exists r :: r in rules && w in r.keywords
  {
    if rules == [] then [] else rules[0].keywords + KeywordsOf(rules[1..])
  }

  /** The twelve keywords of the table. */
  const Keywords: seq<string> := ["registration", "register", "cme", "education", "contact", "phone",
                                  "address", "fee", "cost", "payment", "document", "certificate"]

  /** Step of DefaultIffNoKeyword: the table's keywords are the twelve of `getBotResponse`. */
  lemma KeywordsOfRules()
    ensures KeywordsOf(Rules) == Keywords
  {
  }

  /** The default menu is returned exactly when none of the twelve keywords
      occurs in the lowercased utterance. */
  lemma DefaultIffNoKeyword(userMessage: string)
    ensures GetBotResponse(userMessage) == Default <==>
      forall k :: 0 <= k < |KeywordsOf(Rules)| ==> !Contains(Lower(userMessage), KeywordsOf(Rules)[k])
  {
    KeywordsOfRules();
    var t := Lower(userMessage);
    if GetBotResponse(userMessage) != Default {
      if Contains(t, "registration") { assert Contains(t, Keywords[0]); }
      else if Contains(t, "register") { assert Contains(t, Keywords[1]); }
      else if Contains(t, "cme") { assert Contains(t, Keywords[2]); }
      else if Contains(t, "education") { assert Contains(t, Keywords[3]); }
      else if Contains(t, "contact") { assert Contains(t, Keywords[4]); }
      else if Contains(t, "phone") { assert Contains(t, Keywords[5]); }
      else if Contains(t, "address") { assert Contains(t, Keywords[6]); }
      else if Contains(t, "fee") { assert Contains(t, Keywords[7]); }
      else if Contains(t, "cost") { assert Contains(t, Keywords[8]); }
      else if Contains(t, "payment") { assert Contains(t, Keywords[9]); }
      else if Contains(t, "document") { assert Contains(t, Keywords[10]); }
      else { assert Contains(t, Keywords[11]); }
    }
  }
}
