/**
 * Keyword classification of a task description. Every add path of the
 * dashboard runs an ordered chain of `any(keyword in description.lower()
 * ...)` tests and falls back to a default type; the paths differ in their
 * keyword lists, their order and their default.
 */
module Classify {
  import opened Wrappers
  import opened Text
  import opened Lists

  /** any(keyword in lowered for keyword in keywords) */
  function MentionsAny(lowered: string, keywords: seq<string>): (r: bool)
    ensures r <==> exists k :: 0 <= k < |keywords| && Contains(lowered, keywords[k])
  {
    if keywords == [] then false
    else if Contains(lowered, keywords[0]) then true
    else
      var rest := MentionsAny(lowered, keywords[1..]);
      assert forall k :: 1 <= k < |keywords| ==> keywords[k] == keywords[1..][k - 1];
      rest
  }

  /** One link of a chain: the type given when one of the keywords occurs. */
  datatype Rule = Rule(category: string, keywords: seq<string>)

  /** The category of the first rule whose keywords occur in the lower-cased description. */
  function Classification(rules: seq<Rule>, fallback: string, description: string): (r: string)
    ensures r == fallback || exists i :: 0 <= i < |rules| && r == rules[i].category
  {
    var lowered := Lower(description);
    match FirstIndex(rules, (rule: Rule) => MentionsAny(lowered, rule.keywords))
    case Some(i) => rules[i].category
    case None => fallback
  }

  const WorkKeywords: seq<string> := ["work", "meeting", "project", "email", "report"]
  const AdminKeywords: seq<string> := ["bill", "appointment", "irs", "bank", "admin"]
  const EmotionalKeywords: seq<string> := ["meditation", "journal", "connect", "feelings"]
  /** The shorter work list of the document and voice paths. */
  const ProjectKeywords: seq<string> := ["work", "meeting", "project"]

  /** auto_classify_task_type, and the manual "Save Task" path. */
  const ManualRules: seq<Rule> :=
    [Rule("work", WorkKeywords), Rule("admin", AdminKeywords), Rule("emotional", EmotionalKeywords)]
  /** A suggested task from a document analysis. */
  const DocumentRules: seq<Rule> := [Rule("work", ProjectKeywords)]
  /** A suggested task from a brain dump: no emotional rule. */
  const BrainDumpRules: seq<Rule> := [Rule("work", WorkKeywords), Rule("admin", AdminKeywords)]
  /** A task added by an ADD_TASK directive of the assistant. */
  const VoiceRules: seq<Rule> := [Rule("work", ProjectKeywords)]

  function ManualTaskType(description: string): string
  {
    Classification(ManualRules, "personal", description)
  }

  function DocumentTaskType(description: string): string
  {
    Classification(DocumentRules, "admin", description)
  }

  function BrainDumpTaskType(description: string): string
  {
    Classification(BrainDumpRules, "personal", description)
  }

  function VoiceTaskType(description: string): string
  {
    Classification(VoiceRules, "personal", description)
  }
}

/** What the classification chains decide, proved about the rule tables. */
module ClassifyFacts {
  import opened Text
  import opened Classify

  /** Each rule of a chain applies only when every earlier rule failed: first match wins. */
  lemma ClassificationFirstMatch(rules: seq<Rule>, fallback: string, description: string, i: nat)
    requires i < |rules| && MentionsAny(Lower(description), rules[i].keywords)
    requires forall j :: 0 <= j < i ==> !MentionsAny(Lower(description), rules[j].keywords)
    ensures Classification(rules, fallback, description) == rules[i].category
  {
  }

  /** With no rule applying, the chain gives its default. */
  lemma ClassificationFallback(rules: seq<Rule>, fallback: string, description: string)
    requires forall j :: 0 <= j < |rules| ==> !MentionsAny(Lower(description), rules[j].keywords)
    ensures Classification(rules, fallback, description) == fallback
  {
  }

  /**
   * auto_classify_task_type: a work keyword gives "work" whatever else
   * occurs, then an admin keyword "admin", then an emotional keyword
   * "emotional", and otherwise "personal" — each outcome exactly when its
   * test is the first to pass.
   */
  lemma ManualChain(description: string)
    ensures var l := Lower(description);
      && (ManualTaskType(description) == "work" <==> MentionsAny(l, WorkKeywords))
      && (ManualTaskType(description) == "admin" <==>
            (!MentionsAny(l, WorkKeywords) && MentionsAny(l, AdminKeywords)))
      && (ManualTaskType(description) == "emotional" <==>
            (!MentionsAny(l, WorkKeywords) && !MentionsAny(l, AdminKeywords)
             && MentionsAny(l, EmotionalKeywords)))
      && (ManualTaskType(description) == "personal" <==>
            (!MentionsAny(l, WorkKeywords) && !MentionsAny(l, AdminKeywords)
             && !MentionsAny(l, EmotionalKeywords)))
  {
    var l := Lower(description);
    if MentionsAny(l, WorkKeywords) {
      ClassificationFirstMatch(ManualRules, "personal", description, 0);
    } else if MentionsAny(l, AdminKeywords) {
      ClassificationFirstMatch(ManualRules, "personal", description, 1);
    } else if MentionsAny(l, EmotionalKeywords) {
      ClassificationFirstMatch(ManualRules, "personal", description, 2);
    } else {
      ClassificationFallback(ManualRules, "personal", description);
    }
  }

  /** The brain-dump chain is the manual one with "emotional" folded into "personal". */
  lemma BrainDumpIsManualWithoutEmotional(description: string)
    ensures BrainDumpTaskType(description) ==
              if ManualTaskType(description) == "emotional" then "personal" else ManualTaskType(description)
  {
    var l := Lower(description);
    ManualChain(description);
    if MentionsAny(l, WorkKeywords) {
      ClassificationFirstMatch(BrainDumpRules, "personal", description, 0);
    } else if MentionsAny(l, AdminKeywords) {
      ClassificationFirstMatch(BrainDumpRules, "personal", description, 1);
    } else {
      ClassificationFallback(BrainDumpRules, "personal", description);
    }
  }

  /**
   * The document and voice paths test the same three keywords and differ
   * only in their default: "admin" for a document, "personal" by voice.
   */
  lemma DocumentAndVoiceDefaults(description: string)
    ensures var work := MentionsAny(Lower(description), ProjectKeywords);
      && DocumentTaskType(description) == (if work then "work" else "admin")
      && VoiceTaskType(description) == (if work then "work" else "personal")
  {
    if MentionsAny(Lower(description), ProjectKeywords) {
      ClassificationFirstMatch(DocumentRules, "admin", description, 0);
      ClassificationFirstMatch(VoiceRules, "personal", description, 0);
    } else {
      ClassificationFallback(DocumentRules, "admin", description);
      ClassificationFallback(VoiceRules, "personal", description);
    }
  }

  /** The short work list is a prefix of the full one, so a voice "work" is a manual "work". */
  lemma VoiceWorkIsManualWork(description: string)
    ensures VoiceTaskType(description) == "work" ==> ManualTaskType(description) == "work"
  {
    DocumentAndVoiceDefaults(description);
    ManualChain(description);
    if MentionsAny(Lower(description), ProjectKeywords) {
      var k :| 0 <= k < |ProjectKeywords| && Contains(Lower(description), ProjectKeywords[k]);
      assert WorkKeywords[k] == ProjectKeywords[k];
    }
  }

  /** A keyword occurring at a known position is mentioned. */
  lemma MentionsAt(lowered: string, keywords: seq<string>, k: nat, i: nat)
    requires k < |keywords| && OccursAt(lowered, keywords[k], i)
    ensures MentionsAny(lowered, keywords)
  {
  }

  /**
   * test_app.py: "Schedule a work meeting" is work — and so is every
   * description that lower-cases to the same text.
   */
  lemma WorkMeetingExample(description: string)
    requires Lower(description) == "schedule a work meeting"
    ensures ManualTaskType(description) == "work"
  {
    MentionsAt("schedule a work meeting", WorkKeywords, 0, 11);
    ManualChain(description);
  }

  /** test_app.py: "Project deadline approaching" is work. */
  lemma ProjectDeadlineExample(description: string)
    requires Lower(description) == "project deadline approaching"
    ensures ManualTaskType(description) == "work"
  {
    MentionsAt("project deadline approaching", WorkKeywords, 2, 0);
    ManualChain(description);
  }

  /** No work keyword occurs: each one lacks from the text the letter given for it. */
  lemma NoWorkKeyword(l: string, a: char, b: char, c: char, d: char, e: char)
    requires a in "work" && a !in l && b in "meeting" && b !in l && c in "project" && c !in l
    requires d in "email" && d !in l && e in "report" && e !in l
    ensures !MentionsAny(l, WorkKeywords)
  {
    ContainsNeedsChar(l, "work", a);
    ContainsNeedsChar(l, "meeting", b);
    ContainsNeedsChar(l, "project", c);
    ContainsNeedsChar(l, "email", d);
    ContainsNeedsChar(l, "report", e);
  }

  /** No work keyword occurs, the facts given one by one. */
  lemma NoWorkKeywordOf(l: string)
    requires !Contains(l, "work") && !Contains(l, "meeting") && !Contains(l, "project")
    requires !Contains(l, "email") && !Contains(l, "report")
    ensures !MentionsAny(l, WorkKeywords)
  {
  }

  /** No admin keyword occurs: each one lacks from the text the letter given for it. */
  lemma NoAdminKeyword(l: string, a: char, b: char, c: char, d: char, e: char)
    requires a in "bill" && a !in l && b in "appointment" && b !in l && c in "irs" && c !in l
    requires d in "bank" && d !in l && e in "admin" && e !in l
    ensures !MentionsAny(l, AdminKeywords)
  {
    ContainsNeedsChar(l, "bill", a);
    ContainsNeedsChar(l, "appointment", b);
    ContainsNeedsChar(l, "irs", c);
    ContainsNeedsChar(l, "bank", d);
    ContainsNeedsChar(l, "admin", e);
  }

  /** No admin keyword occurs, the facts given one by one. */
  lemma NoAdminKeywordOf(l: string)
    requires !Contains(l, "bill") && !Contains(l, "appointment") && !Contains(l, "irs")
    requires !Contains(l, "bank") && !Contains(l, "admin")
    ensures !MentionsAny(l, AdminKeywords)
  {
  }

  /** No emotional keyword occurs: each one lacks from the text the letter given for it. */
  lemma NoEmotionalKeyword(l: string, a: char, b: char, c: char, d: char)
    requires a in "meditation" && a !in l && b in "journal" && b !in l
    requires c in "connect" && c !in l && d in "feelings" && d !in l
    ensures !MentionsAny(l, EmotionalKeywords)
  {
    ContainsNeedsChar(l, "meditation", a);
    ContainsNeedsChar(l, "journal", b);
    ContainsNeedsChar(l, "connect", c);
    ContainsNeedsChar(l, "feelings", d);
  }

  /** No keyword of the short work list occurs. */
  lemma NoProjectKeyword(l: string, a: char, b: char, c: char)
    requires a in "work" && a !in l && b in "meeting" && b !in l && c in "project" && c !in l
    ensures !MentionsAny(l, ProjectKeywords)
  {
    ContainsNeedsChar(l, "work", a);
    ContainsNeedsChar(l, "meeting", b);
    ContainsNeedsChar(l, "project", c);
  }

  lemma ElectricityBillNotWork()
    ensures !MentionsAny("pay electricity bill", WorkKeywords)
  {
    NoWorkKeyword("pay electricity bill", 'w', 'm', 'j', 'm', 'o');
  }

  lemma ElectricityBillMentionsBill()
    ensures MentionsAny("pay electricity bill", AdminKeywords)
  {
    MentionsAt("pay electricity bill", AdminKeywords, 0, 16);
  }

  /** test_app.py: "Pay electricity bill" is admin. */
  lemma ElectricityBillExample(description: string)
    requires Lower(description) == "pay electricity bill"
    ensures ManualTaskType(description) == "admin"
  {
    ElectricityBillNotWork();
    ElectricityBillMentionsBill();
    ManualChain(description);
  }

  /** The letters that tell "book doctor appointment" apart from four of the work keywords. */
  lemma DoctorAppointmentLetters(l: string)
    requires l == "book doctor appointment"
    ensures 'w' !in l && 'g' !in l && 'j' !in l && 'l' !in l
  {
  }

  /** Every letter of "report" is in "book doctor appointment", but never an 'r' before an 'e'. */
  lemma DoctorAppointmentNoReport(l: string)
    requires l == "book doctor appointment"
    ensures !Contains(l, "report")
  {
    ContainsNeedsPair(l, "report", 0);
  }

  lemma DoctorAppointmentNotWork(l: string)
    requires l == "book doctor appointment"
    ensures !MentionsAny(l, WorkKeywords)
  {
    DoctorAppointmentLetters(l);
    ContainsNeedsChar(l, "work", 'w');
    ContainsNeedsChar(l, "meeting", 'g');
    ContainsNeedsChar(l, "project", 'j');
    ContainsNeedsChar(l, "email", 'l');
    DoctorAppointmentNoReport(l);
    NoWorkKeywordOf(l);
  }

  lemma DoctorAppointmentMentionsAppointment()
    ensures MentionsAny("book doctor appointment", AdminKeywords)
  {
    var l: string := "book doctor appointment";
    assert l[12..] == AdminKeywords[1];
    MentionsAt(l, AdminKeywords, 1, 12);
  }

  /** test_app.py: "Book doctor appointment" is admin. */
  lemma DoctorAppointmentExample(description: string)
    requires Lower(description) == "book doctor appointment"
    ensures ManualTaskType(description) == "admin"
  {
    DoctorAppointmentNotWork(Lower(description));
    DoctorAppointmentMentionsAppointment();
    ManualChain(description);
  }

  lemma FeelingsMissingLetters()
    ensures !Contains("reflect on feelings", "bill") && !Contains("reflect on feelings", "appointment")
    ensures !Contains("reflect on feelings", "bank") && !Contains("reflect on feelings", "admin")
  {
    ContainsNeedsChar("reflect on feelings", "bill", 'b');
    ContainsNeedsChar("reflect on feelings", "appointment", 'a');
    ContainsNeedsChar("reflect on feelings", "bank", 'b');
    ContainsNeedsChar("reflect on feelings", "admin", 'a');
  }

  /** Both letters of "irs" are in "reflect on feelings", but never an 'i' before an 'r'. */
  lemma FeelingsNoIrs()
    ensures !Contains("reflect on feelings", "irs")
  {
    ContainsNeedsPair("reflect on feelings", "irs", 0);
  }

  lemma FeelingsNotAdmin()
    ensures !MentionsAny("reflect on feelings", AdminKeywords)
  {
    FeelingsMissingLetters();
    FeelingsNoIrs();
    NoAdminKeywordOf("reflect on feelings");
  }

  lemma FeelingsMentionsFeelings()
    ensures MentionsAny("reflect on feelings", EmotionalKeywords)
  {
    MentionsAt("reflect on feelings", EmotionalKeywords, 3, 11);
  }

  /** The letters that tell "reflect on feelings" apart from the work keywords. */
  lemma FeelingsLetters(l: string)
    requires l == "reflect on feelings"
    ensures 'w' !in l && 'm' !in l && 'p' !in l
  {
  }

  /**
   * test_app.py: "Reflect on feelings" is emotional, while the other paths
   * give the same description "personal" from a brain dump or by voice and
   * "admin" from a document.
   */
  lemma FeelingsExample(description: string)
    requires Lower(description) == "reflect on feelings"
    ensures ManualTaskType(description) == "emotional"
    ensures BrainDumpTaskType(description) == "personal"
    ensures DocumentTaskType(description) == "admin"
    ensures VoiceTaskType(description) == "personal"
  {
    var l := Lower(description);
    FeelingsLetters(l);
    NoWorkKeyword(l, 'w', 'm', 'p', 'm', 'p');
    NoProjectKeyword(l, 'w', 'm', 'p');
    FeelingsNotAdmin();
    FeelingsMentionsFeelings();
    ManualChain(description);
    BrainDumpIsManualWithoutEmotional(description);
    DocumentAndVoiceDefaults(description);
  }

  /** The letters that tell "go for a run" apart from every keyword. */
  lemma RunLetters(l: string)
    requires l == "go for a run"
    ensures 'w' !in l && 'm' !in l && 'p' !in l && 'b' !in l && 'i' !in l
    ensures 'd' !in l && 'j' !in l && 'c' !in l && 'e' !in l
  {
  }

  /** test_app.py: "Go for a run" falls back to personal. */
  lemma RunExample(description: string)
    requires Lower(description) == "go for a run"
    ensures ManualTaskType(description) == "personal"
  {
    var l := Lower(description);
    RunLetters(l);
    assert !MentionsAny(l, WorkKeywords) by { NoWorkKeyword(l, 'w', 'm', 'p', 'm', 'p'); }
    assert !MentionsAny(l, AdminKeywords) by { NoAdminKeyword(l, 'b', 'p', 'i', 'b', 'd'); }
    assert !MentionsAny(l, EmotionalKeywords) by { NoEmotionalKeyword(l, 'm', 'j', 'c', 'e'); }
    ManualChain(description);
  }

  /** The letters that tell "call mom" apart from every keyword. */
  lemma CallMomLetters(l: string)
    requires l == "call mom"
    ensures 'w' !in l && 'e' !in l && 'p' !in l && 'r' !in l && 'b' !in l
    ensures 'i' !in l && 'd' !in l && 'j' !in l && 'n' !in l && 'f' !in l
  {
  }

  /** test_app.py: "Call mom" falls back to personal. */
  lemma CallMomExample(description: string)
    requires Lower(description) == "call mom"
    ensures ManualTaskType(description) == "personal"
  {
    var l := Lower(description);
    CallMomLetters(l);
    assert !MentionsAny(l, WorkKeywords) by { NoWorkKeyword(l, 'w', 'e', 'p', 'e', 'r'); }
    assert !MentionsAny(l, AdminKeywords) by { NoAdminKeyword(l, 'b', 'p', 'i', 'b', 'd'); }
    assert !MentionsAny(l, EmotionalKeywords) by { NoEmotionalKeyword(l, 'e', 'j', 'n', 'f'); }
    ManualChain(description);
  }

  lemma EmailMentionsEmail()
    ensures MentionsAny("send email", WorkKeywords)
  {
    MentionsAt("send email", WorkKeywords, 3, 5);
  }

  /** The letters that tell "send email" apart from the short work list. */
  lemma EmailLetters(l: string)
    requires l == "send email"
    ensures 'w' !in l && 'g' !in l && 'p' !in l
  {
  }

  /** "Send email" is work when saved by hand, but not by voice nor from a document. */
  lemma EmailOnlyOnLongList(description: string)
    requires Lower(description) == "send email"
    ensures ManualTaskType(description) == "work"
    ensures VoiceTaskType(description) == "personal"
    ensures DocumentTaskType(description) == "admin"
  {
    EmailMentionsEmail();
    EmailLetters(Lower(description));
    NoProjectKeyword(Lower(description), 'w', 'g', 'p');
    ManualChain(description);
    DocumentAndVoiceDefaults(description);
  }
}
