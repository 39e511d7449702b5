/**
 * get_ai_task_classification of the backend: the reply of the language
 * model is trimmed, lower-cased and cleared of quote marks, and accepted
 * only when it names one of the known categories. The model itself is an
 * oracle from prompt to reply, where no reply stands for a failed call.
 */
module AiClassification {
  import opened Wrappers
  import opened Text

  /** The categories a classification may take; "general" is also the fallback. */
  const Categories: seq<string> :=
    ["personal", "work", "admin", "emotional", "shopping", "health",
     "learning", "finance", "home", "other", "general"]

  /** The category list as the prompt spells it out. */
  const PromptCategoryList: string :=
    "personal, work, admin, emotional, shopping, health, learning, finance, home, other"

  const PromptIntro: string :=
    "Classify the following task description into one of these categories: "

  /** The line naming the task: Task: "<description>" */
  function TaskLine(description: string): string
  {
    "Task: \"" + description + "\""
  }

  /** The user message sent to the model. */
  function Prompt(description: string): string
  {
    PromptIntro + PromptCategoryList + ".\n" + TaskLine(description) + "\nCategory:"
  }

  /** The language model: a reply to a prompt, or None when the call raises. */
  type Oracle = string -> Option<string>

  /** reply.strip().lower().replace('"', '').replace("'", '') */
  function Normalise(reply: string): string
  {
    RemoveAll(RemoveAll(Lower(Strip(reply)), "\""), "'")
  }

  /** The normalised reply when it is a known category, else "general". */
  function Accept(reply: string): (r: string)
    ensures r in Categories
  {
    var classification := Normalise(reply);
    if classification in Categories then classification else "general"
  }

  /** get_ai_task_classification(client, description) */
  function TaskClassification(client: Option<Oracle>, description: string): (r: string)
    ensures r in Categories
  {
    match client
    case None => "general"
    case Some(ask) =>
      match ask(Prompt(description))
      case None => "general"
      case Some(reply) => Accept(reply)
  }
}

/** What the classification promises, proved about the functions above. */
module AiClassificationFacts {
  import opened Wrappers
  import opened Text
  import opened AiClassification

  /** Without a client the result is "general", whatever the description. */
  lemma NoClientIsGeneral(description: string)
    ensures TaskClassification(None, description) == "general"
  {
  }

  /** A failed call yields "general". */
  lemma FailedCallIsGeneral(ask: Oracle, description: string)
    requires ask(Prompt(description)).None?
    ensures TaskClassification(Some(ask), description) == "general"
  {
  }

  /**
   * A reply is accepted exactly when its normalised form is a known
   * category, and then that form is the result; otherwise "general".
   */
  lemma ReplyDecides(ask: Oracle, description: string, reply: string)
    requires ask(Prompt(description)) == Some(reply)
    ensures Normalise(reply) in Categories ==> TaskClassification(Some(ask), description) == Normalise(reply)
    ensures Normalise(reply) !in Categories ==> TaskClassification(Some(ask), description) == "general"
  {
  }

  /** The normalised reply never carries a quote mark. */
  lemma NormalisedHasNoQuotes(reply: string)
    ensures '"' !in Normalise(reply) && '\'' !in Normalise(reply)
  {
    var unquoted := RemoveAll(Lower(Strip(reply)), "\"");
    RemoveCharGone(Lower(Strip(reply)), '"');
    RemoveAllShrinks(unquoted, "'");
    assert '"' !in multiset(unquoted);
    RemoveCharGone(unquoted, '\'');
  }

  /** The result never carries a quote mark, even on the "general" fallback. */
  lemma ResultHasNoQuotes(client: Option<Oracle>, description: string)
    ensures var r := TaskClassification(client, description); '"' !in r && '\'' !in r
  {
    if client.Some? && client.value(Prompt(description)).Some? {
      NormalisedHasNoQuotes(client.value(Prompt(description)).value);
    }
  }

  /**
   * A category wrapped in one kind of quote mark normalises to the bare
   * category: the marks are not white space, so strip keeps them, and the
   * removal of that mark takes both off.
   */
  lemma QuotedCategory(w: string, q: char)
    requires q == '"' || q == '\''
    requires Lower(w) == w && '"' !in w && '\'' !in w
    ensures Normalise([q] + w + [q]) == w
  {
    var s := [q] + w + [q];
    assert IsStripped(s);
    StripStripped(s);
    assert Lower(s) == s;
    if q == '"' {
      RemoveCharAround(w, '"');
      ContainsNeedsChar(w, "'", '\'');
      RemoveAbsent(w, "'");
    } else {
      ContainsNeedsChar(s, "\"", '"');
      RemoveAbsent(s, "\"");
      RemoveCharAround(w, '\'');
    }
  }

  /** A reply that is already a bare category comes back unchanged. */
  lemma BareCategory(w: string)
    requires IsStripped(w) && Lower(w) == w && '"' !in w && '\'' !in w
    ensures Normalise(w) == w
  {
    StripStripped(w);
    ContainsNeedsChar(w, "\"", '"');
    RemoveAbsent(w, "\"");
    ContainsNeedsChar(w, "'", '\'');
    RemoveAbsent(w, "'");
  }

  lemma WorkNormalises()
    ensures Normalise("work") == "work"
  {
    assert Lower("work") == "work";
    BareCategory("work");
  }

  lemma PersonalNormalises()
    ensures Normalise("personal") == "personal"
  {
    assert Lower("personal") == "personal";
    BareCategory("personal");
  }

  /** test_ai_utils.py: the reply "work" is returned as it is. */
  lemma WorkReplyExample(ask: Oracle, description: string)
    requires ask(Prompt(description)) == Some("work")
    ensures TaskClassification(Some(ask), description) == "work"
  {
    WorkNormalises();
    CategoryReplyKept(ask, description, Categories[1]);
  }

  /** test_ai_utils.py: the reply "personal" is returned as it is. */
  lemma PersonalReplyExample(ask: Oracle, description: string)
    requires ask(Prompt(description)) == Some("personal")
    ensures TaskClassification(Some(ask), description) == "personal"
  {
    PersonalNormalises();
    CategoryReplyKept(ask, description, Categories[0]);
  }

  /** A reply that is a category and normalises to itself is the result. */
  lemma CategoryReplyKept(ask: Oracle, description: string, reply: string)
    requires ask(Prompt(description)) == Some(reply)
    requires Normalise(reply) == reply && reply in Categories
    ensures TaskClassification(Some(ask), description) == reply
  {
  }

  lemma HomeNormalises()
    ensures Normalise("\"home\"") == "home"
  {
    assert "\"home\"" == ['"'] + "home" + ['"'];
    assert Lower("home") == "home";
    QuotedCategory("home", '"');
  }

  /** test_ai_utils.py: the reply "\"home\"" loses its quote marks. */
  lemma DoubleQuotedReplyExample(ask: Oracle, description: string)
    requires ask(Prompt(description)) == Some("\"home\"")
    ensures TaskClassification(Some(ask), description) == "home"
  {
    HomeNormalises();
    assert "home" in Categories;
  }

  lemma FinanceNormalises()
    ensures Normalise("'finance'") == "finance"
  {
    assert "'finance'" == ['\''] + "finance" + ['\''];
    assert Lower("finance") == "finance";
    QuotedCategory("finance", '\'');
  }

  /** test_ai_utils.py: the reply "'finance'" loses its quote marks. */
  lemma SingleQuotedReplyExample(ask: Oracle, description: string)
    requires ask(Prompt(description)) == Some("'finance'")
    ensures TaskClassification(Some(ask), description) == "finance"
  {
    FinanceNormalises();
    assert "finance" in Categories;
  }

  lemma UnexpectedNormalises()
    ensures Normalise("unexpected_category") == "unexpected_category"
  {
    assert Lower("unexpected_category") == "unexpected_category";
    BareCategory("unexpected_category");
  }

  /** test_ai_utils.py: the reply "unexpected_category" falls back to "general". */
  lemma UnexpectedReplyExample(ask: Oracle, description: string)
    requires ask(Prompt(description)) == Some("unexpected_category")
    ensures TaskClassification(Some(ask), description) == "general"
  {
    UnexpectedNormalises();
    assert "unexpected_category" !in Categories;
  }

  /** The prompt names the task as Task: "<description>", lists the categories and asks for one. */
  lemma PromptContents(description: string)
    ensures Contains(Prompt(description), TaskLine(description))
    ensures Contains(Prompt(description), PromptCategoryList)
    ensures Contains(Prompt(description), "Category:")
  {
    var e: string := "\n";
    var f: string := "Category:";
    assert e + f == "\nCategory:";
    Infixes(PromptIntro, PromptCategoryList, ".\n", TaskLine(description), e, f);
    assert PromptIntro + PromptCategoryList + ".\n" + TaskLine(description) + e + f == Prompt(description);
  }

  /** The second, fourth and sixth of six concatenated pieces occur in the whole. */
  lemma Infixes(a: string, b: string, c: string, d: string, e: string, f: string)
    ensures Contains(a + b + c + d + e + f, b)
    ensures Contains(a + b + c + d + e + f, d)
    ensures Contains(a + b + c + d + e + f, f)
  {
    var s := a + b + c + d + e + f;
    ContainsInfix(a, b, c + d + e + f);
    assert a + b + (c + d + e + f) == s;
    ContainsInfix(a + b + c, d, e + f);
    assert a + b + c + d + (e + f) == s;
    var empty: string := [];
    ContainsInfix(a + b + c + d + e, f, empty);
    assert a + b + c + d + e + f + empty == s;
  }
}
