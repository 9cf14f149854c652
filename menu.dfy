/** The menu dispatch of POST / (app.js:127-176): from the normalised message
    body to the one text reply the bot sends, first match winning.

    As written, app.js:154-158 does not parse: an `else` sending "PDF could
    not be uploaded." closes the chain right after the branch for "4", and
    the brace after it closes the handler, leaving the branches for the
    lettered codes dangling. This model takes the evident intended chain,
    greeting, 1, 2, 3, 4, A, B, C, D, I, any of A to I, then the fallback,
    and has no branch for "PDF could not be uploaded.". */
module Menu {
  import opened Wrappers

  /** The static replies the bot can send. */
  datatype Reply =
    | Welcome | BookDoctor | HomeLab | Ambulance | Departments
    | Wellness | Radiology | Surgical | Physiotherapy | Pharmacy
    | Support | InvalidOption

  /** The exact text of each reply (app.js:130-175). */
  function Text(r: Reply): string {
    match r
    case Welcome =>
      "Welcome to King's Hospital. Please select a service:\n"
      + "1. Book a Doctor\n2. Home Lab Request\n3. Ambulance Service\n4. Other Hospital Services"
    case BookDoctor => "Contact the following number to book an appointment: 94117743743"
    case HomeLab => "Contact the following number to place a homelab request: 9876543212"
    case Ambulance => "Contact the following number to request ambulance service: 9876543515"
    case Departments =>
      "Please select from the following:\n"
      + "A. Wellness Center\nB. Radiology\nC. Surgical Care\nD. Physiotherapy Unit\nE. Laboratory Services\n"
      + "F. Endoscopy Unit\nG. Wound Clinic\nH. Gynecology & Obstetrics\nI. 24 Hours Pharmacy"
    case Wellness => "Contact this number for Wellness Center: 044-121345"
    case Radiology => "Contact this number for Radiology : 044-121346"
    case Surgical => "Contact this number for Surgical Care: 044-121347"
    case Physiotherapy => "Contact this number for Physiotheraphy Unit: 044-121348"
    case Pharmacy => "Contact this number for 24 HOURS Pharmacy: 044-121349"
    case Support => "Contact this number for customer support: 044-121345"
    case InvalidOption => "Please choose from the given options"
  }

  const Greetings := ["HI", "HELLO", "HEY"]
  const Letters := ["A", "B", "C", "D", "E", "F", "G", "H", "I"]

  /** What one branch does: the text it sends, and whether the PDF follows. */
  datatype Choice = Choice(reply: Reply, sendsDocument: bool)

  /** The if/else chain of app.js:128-176, `body` being `msgBody`, which is
      undefined when the message has no text body. */
  function Dispatch(body: Option<string>): (c: Choice)
    ensures c.reply == Welcome <==> body.Some? && body.value in Greetings
    ensures c.sendsDocument ==> c.reply == Departments
  {
    if body.Some? && body.value in Greetings then Choice(Welcome, false)
    else if body == Some("1") then Choice(BookDoctor, false)
    else if body == Some("2") then Choice(HomeLab, false)
    else if body == Some("3") then Choice(Ambulance, false)
    else if body == Some("4") then Choice(Departments, true)
    else if body == Some("A") then Choice(Wellness, false)
    else if body == Some("B") then Choice(Radiology, false)
    else if body == Some("C") then Choice(Surgical, false)
    else if body == Some("D") then Choice(Physiotherapy, false)
    else if body == Some("I") then Choice(Pharmacy, false)
    else if body.Some? && body.value in Letters then Choice(Support, false)
    else Choice(InvalidOption, false)
  }

  // The same menu as a declarative table, an ordered list of rules with a
  // catch-all, against which the chain above is proved.

  datatype Rule = Rule(codes: seq<string>, choice: Choice)

  predicate Matches(rule: Rule, body: Option<string>) {
    body.Some? && body.value in rule.codes
  }

  const Rules := [
    Rule(Greetings, Choice(Welcome, false)),
    Rule(["1"], Choice(BookDoctor, false)),
    Rule(["2"], Choice(HomeLab, false)),
    Rule(["3"], Choice(Ambulance, false)),
    Rule(["4"], Choice(Departments, true)),
    Rule(["A"], Choice(Wellness, false)),
    Rule(["B"], Choice(Radiology, false)),
    Rule(["C"], Choice(Surgical, false)),
    Rule(["D"], Choice(Physiotherapy, false)),
    Rule(["I"], Choice(Pharmacy, false)),
    Rule(Letters, Choice(Support, false))
  ]
  const Fallback := Choice(InvalidOption, false)

  /** The position of the first rule from `from` on matching `body`, or
      `|rules|` when none does. */
  function FirstMatchFrom(rules: seq<Rule>, body: Option<string>, from: nat): (k: nat)
    requires from <= |rules|
    ensures from <= k <= |rules|
    ensures k < |rules| ==> Matches(rules[k], body)
    ensures forall j :: from <= j < k ==> !Matches(rules[j], body)
    decreases |rules| - from
  {
    if from == |rules| then from
    else if Matches(rules[from], body) then from
    else FirstMatchFrom(rules, body, from + 1)
  }

  /** The position of the first rule matching `body`, or `|rules|` when none
      does. */
  function FirstMatch(rules: seq<Rule>, body: Option<string>): (k: nat)
    ensures k <= |rules|
    ensures k < |rules| ==> Matches(rules[k], body)
    ensures forall j :: 0 <= j < k ==> !Matches(rules[j], body)
  {
    FirstMatchFrom(rules, body, 0)
  }

  /** The choice of the first matching rule, the catch-all otherwise. */
  function Lookup(rules: seq<Rule>, body: Option<string>): (c: Choice)
    ensures FirstMatch(rules, body) < |rules| ==> c == rules[FirstMatch(rules, body)].choice
    ensures FirstMatch(rules, body) == |rules| ==> c == Fallback
  {
    var k := FirstMatch(rules, body);
    if k < |rules| then rules[k].choice else Fallback
  }

  /** A body no rule claims gets the catch-all from both. */
  lemma NoRuleMatches(body: Option<string>)
    requires FirstMatch(Rules, body) == |Rules|
    ensures Dispatch(body) == Fallback
  {
    assert !Matches(Rules[0], body) && !Matches(Rules[1], body) && !Matches(Rules[2], body);
    assert !Matches(Rules[3], body) && !Matches(Rules[4], body) && !Matches(Rules[5], body);
    assert !Matches(Rules[6], body) && !Matches(Rules[7], body) && !Matches(Rules[8], body);
    assert !Matches(Rules[9], body) && !Matches(Rules[10], body);
  }

  /** A body the letter list claims first is one of E to H. */
  lemma SupportRuleMatches(body: Option<string>)
    requires FirstMatch(Rules, body) == 10
    ensures body.Some? && body.value in ["E", "F", "G", "H"]
  {
    assert Matches(Rules[10], body);
    assert !Matches(Rules[5], body) && !Matches(Rules[6], body) && !Matches(Rules[7], body);
    assert !Matches(Rules[8], body) && !Matches(Rules[9], body);
  }

  /** A body one of the first five rules claims first gets that rule's
      choice from the chain. */
  lemma EarlyRuleMatches(body: Option<string>)
    requires FirstMatch(Rules, body) < 5
    ensures Dispatch(body) == Rules[FirstMatch(Rules, body)].choice
  {
    var k := FirstMatch(Rules, body);
    assert k == 0 || k == 1 || k == 2 || k == 3 || k == 4;
  }

  /** A body one of the five single-letter rules claims first gets that
      rule's choice from the chain. */
  lemma LetterRuleMatches(body: Option<string>)
    requires 5 <= FirstMatch(Rules, body) < 10
    ensures Dispatch(body) == Rules[FirstMatch(Rules, body)].choice
  {
    var k := FirstMatch(Rules, body);
    assert k == 5 || k == 6 || k == 7 || k == 8 || k == 9;
  }

  /** The chain makes the choice of the first matching rule of the table:
      first match wins, and a body matching no code, or no body at all, gets
      the catch-all. */
  lemma DispatchFollowsRules(body: Option<string>)
    ensures Dispatch(body) == Lookup(Rules, body)
  {
    var k := FirstMatch(Rules, body);
    if k == |Rules| {
      NoRuleMatches(body);
    } else if k == 10 {
      SupportRuleMatches(body);
    } else if k < 5 {
      EarlyRuleMatches(body);
    } else {
      LetterRuleMatches(body);
    }
  }

  /** Every code some rule claims. */
  predicate IsMenuCode(s: string) {
    s in Greetings || s in ["1", "2", "3", "4"] || s in Letters
  }

  /** The catch-all answers exactly the bodies that are no menu code, the
      missing body included. */
  lemma InvalidOptionExactlyForUnknownCodes(body: Option<string>)
    ensures Dispatch(body).reply == InvalidOption <==> !(body.Some? && IsMenuCode(body.value))
  {
  }

  /** Only "4" brings the PDF. */
  lemma DocumentOnlyForFour(body: Option<string>)
    ensures Dispatch(body).sendsDocument <==> body == Some("4")
  {
  }

  /** Shadowing: A, B, C, D and I are taken by their own branches before the
      list of letters is reached, so only E, F, G and H get the
      customer-support reply. */
  lemma SupportRuleOnlyForEToH(body: Option<string>)
    ensures FirstMatch(Rules, body) == 10 <==> body.Some? && body.value in ["E", "F", "G", "H"]
  {
    if FirstMatch(Rules, body) == 10 {
      SupportRuleMatches(body);
    }
    if body.Some? && body.value in ["E", "F", "G", "H"] {
      SupportRuleReached(body);
    }
  }

  /** E to H pass every earlier rule and reach the letter list. */
  lemma SupportRuleReached(body: Option<string>)
    requires body.Some? && body.value in ["E", "F", "G", "H"]
    ensures FirstMatch(Rules, body) == 10
  {
    SupportReplies(body.value);
    SupportReplyFromLetterList(body);
  }

  /** A body the chain answers with the customer-support reply was claimed
      by the letter list. */
  lemma SupportReplyFromLetterList(body: Option<string>)
    requires Dispatch(body).reply == Support
    ensures FirstMatch(Rules, body) == 10
  {
    DispatchFollowsRules(body);
    var k := FirstMatch(Rules, body);
    if k < |Rules| {
      OnlyLetterListSendsSupport(k);
    }
  }

  /** The last rule is the only one whose reply is the customer-support
      reply (the Wellness Center reply shares its number but not its
      words). */
  lemma OnlyLetterListSendsSupport(k: nat)
    requires k < |Rules| && Rules[k].choice.reply == Support
    ensures k == 10
  {
    assert k == 0 || k == 1 || k == 2 || k == 3 || k == 4 || k == 5
      || k == 6 || k == 7 || k == 8 || k == 9 || k == 10;
  }

  /** Each greeting gets the welcome menu, and no document. */
  lemma GreetingsGetWelcome(s: string)
    requires s in Greetings
    ensures Lookup(Rules, Some(s)) == Choice(Welcome, false)
  {
    assert Matches(Rules[0], Some(s));
  }

  /** A to D and I each get their own department's reply. */
  lemma DepartmentReplies()
    ensures Dispatch(Some("A")).reply == Wellness && Dispatch(Some("B")).reply == Radiology
    ensures Dispatch(Some("C")).reply == Surgical && Dispatch(Some("D")).reply == Physiotherapy
    ensures Dispatch(Some("I")).reply == Pharmacy
  {
  }

  /** E to H, the letters without a branch of their own, get the
      customer-support reply. */
  lemma SupportReplies(c: string)
    requires c in ["E", "F", "G", "H"]
    ensures Dispatch(Some(c)).reply == Support
  {
  }
}
