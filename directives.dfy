/**
 * The assistant's reply format: natural text followed by an action line
 * `ACTION: <VERB> | KEY1: val1 | KEY2: val2`. The reply is split into its
 * lines, the last line that starts with "ACTION:" is the directive, and the
 * directive is cut into a verb and a parameter table.
 */
module Directives {
  import opened Wrappers
  import opened Text
  import opened Lists

  const ActionPrefix: string := "ACTION:"

  /** line.startswith("ACTION:") */
  predicate IsActionLine(line: string)
  {
    StartsWith(line, ActionPrefix)
  }

  /** The action line of a reply: the last of its lines that starts with "ACTION:". */
  function ActionOf(reply: string): Option<string>
  {
    var lines := SplitLines(reply);
    At(lines, LastIndex(lines, IsActionLine))
  }

  /** The natural-language lines of a reply: all the others, in order. */
  function NaturalOf(reply: string): seq<string>
  {
    Filter(SplitLines(reply), (line: string) => !IsActionLine(line))
  }

  /**
   * The walk over the reply's lines: an action line replaces the one seen
   * before it, any other line is kept for display.
   */
  method SplitReply(reply: string) returns (natural: seq<string>, action: Option<string>)
    ensures natural == NaturalOf(reply)
    ensures action == ActionOf(reply)
  {
    var lines := SplitLines(reply);
    natural, action := [], None;
    var i := 0;
    while i < |lines|
      invariant 0 <= i <= |lines|
      invariant natural == Filter(lines[..i], (line: string) => !IsActionLine(line))
      invariant action == At(lines[..i], LastIndex(lines[..i], IsActionLine))
    {
      assert lines[..i + 1][..i] == lines[..i];
      if IsActionLine(lines[i]) {
        action := Some(lines[i]);
      } else {
        natural := natural + [lines[i]];
      }
      i := i + 1;
    }
    assert lines[..i] == lines;
  }

  /** The text shown above the action: the natural lines rejoined and stripped, or "Got it." when nothing is left. */
  function NaturalDisplay(natural: seq<string>): (r: string)
    ensures r != [] && IsStripped(r)
    ensures Strip(Join(natural, "\n")) != [] ==> r == Strip(Join(natural, "\n"))
    ensures Strip(Join(natural, "\n")) == [] ==> r == "Got it."
  {
    var text := Strip(Join(natural, "\n"));
    if text == [] then "Got it." else text
  }

  /** [part.strip() for part in parts] */
  function StripEach(parts: seq<string>): (r: seq<string>)
    ensures |r| == |parts|
  {
    if parts == [] then [] else [Strip(parts[0])] + StripEach(parts[1..])
  }

  /** [part.strip() for part in line.split("|")] */
  function Segments(line: string): (segs: seq<string>)
    ensures |segs| >= 1
  {
    StripEach(Split(line, '|'))
  }

  /** part.split(":", 1) when it gives two pieces: the text before the first colon and the rest. */
  function SplitAtColon(part: string): (r: Option<(string, string)>)
    ensures r.None? <==> ':' !in part
    ensures r.Some? ==> part == r.value.0 + ":" + r.value.1 && ':' !in r.value.0
  {
    if ':' !in part then None
    else
      var i := IndexOf(part, ':');
      assert part == part[..i] + ":" + part[i + 1..];
      Some((part[..i], part[i + 1..]))
  }

  /** The key and the value a segment sets, both stripped; a segment without ':' sets nothing. */
  function Entry(segment: string): Option<(string, string)>
  {
    match SplitAtColon(segment)
    case None => None
    case Some((key, value)) => Some((Strip(key), Strip(value)))
  }

  /**
   * A table filled from items in order: an item may set one key, and a
   * later item that sets the same key overwrites the earlier value.
   */
  function Table<T>(items: seq<T>, entry: T -> Option<(string, string)>): map<string, string>
  {
    if items == [] then map[]
    else
      var table := Table(items[..|items| - 1], entry);
      var e := entry(items[|items| - 1]);
      if e.None? then table else table[e.value.0 := e.value.1]
  }

  /** One more item either leaves the table alone or sets its one key. */
  lemma TableSnoc<T>(items: seq<T>, entry: T -> Option<(string, string)>, item: T)
    ensures Table(items + [item], entry) ==
      if entry(item).None? then Table(items, entry)
      else Table(items, entry)[entry(item).value.0 := entry(item).value.1]
  {
    assert (items + [item])[..|items|] == items;
  }

  /** Item `item` sets key `key`. */
  predicate Sets<T>(entry: T -> Option<(string, string)>, item: T, key: string)
  {
    entry(item).Some? && entry(item).value.0 == key
  }

  /** The action_params table after its segments are entered in order. */
  function ParamsOf(segs: seq<string>): map<string, string>
  {
    Table(segs, Entry)
  }

  /** The loop that fills a table from items in order, one item at a time. */
  method FillTable<T>(items: seq<T>, entry: T -> Option<(string, string)>) returns (table: map<string, string>)
    ensures table == Table(items, entry)
  {
    table := map[];
    var i := 0;
    while i < |items|
      invariant 0 <= i <= |items|
      invariant table == Table(items[..i], entry)
    {
      assert items[..i] + [items[i]] == items[..i + 1];
      TableSnoc(items[..i], entry, items[i]);
      var e := entry(items[i]);
      if e.Some? {
        table := table[e.value.0 := e.value.1];
      }
      i := i + 1;
    }
    assert items[..i] == items;
  }

  /** The loop that fills action_params, one segment at a time. */
  method CollectParams(segs: seq<string>) returns (params: map<string, string>)
    ensures params == ParamsOf(segs)
  {
    params := FillTable(segs, Entry);
  }

  /** The verb of a directive with its parameter table. */
  datatype Directive = Directive(verb: string, params: map<string, string>)

  /** action_parts[0].replace("ACTION:", "").strip() */
  function ActionType(first: string): string
  {
    Strip(RemoveAll(first, ActionPrefix))
  }

  /** The directive an action line carries. */
  function ParseDirective(line: string): Directive
  {
    var segs := Segments(line);
    Directive(ActionType(segs[0]), ParamsOf(segs[1..]))
  }

  /** Reading an action line: the segments, the verb, then the parameter loop. */
  method ReadDirective(line: string) returns (d: Directive)
    ensures d == ParseDirective(line)
  {
    var segs := Segments(line);
    var params := CollectParams(segs[1..]);
    d := Directive(ActionType(segs[0]), params);
  }

  /** One parameter as the prompt teaches it: `KEY: value`. */
  function Field(key: string, value: string): string
  {
    key + ": " + value
  }

  /** The parameters of an action line, each after " | ". */
  function RenderParams(ps: seq<(string, string)>): string
  {
    if ps == [] then ""
    else " | " + Field(ps[0].0, ps[0].1) + RenderParams(ps[1..])
  }

  /** The segments a parameter list renders to, one `KEY: value` each. */
  function Fields(ps: seq<(string, string)>): (r: seq<string>)
    ensures |r| == |ps|
    ensures forall i :: 0 <= i < |ps| ==> r[i] == Field(ps[i].0, ps[i].1)
  {
    if ps == [] then [] else [Field(ps[0].0, ps[0].1)] + Fields(ps[1..])
  }

  /** The action line `ACTION: VERB | KEY1: val1 | ...` the prompt asks the assistant to write. */
  function Render(verb: string, ps: seq<(string, string)>): string
  {
    ActionPrefix + " " + verb + RenderParams(ps)
  }

  /** A verb, key or value that survives the format: non-empty, stripped, without '|' or line break. */
  predicate IsWord(s: string)
  {
    s != [] && IsStripped(s) && '|' !in s && '\n' !in s
  }

  /** Parameters the format can carry: words, with no ':' in a key. */
  predicate WellFormedParams(ps: seq<(string, string)>)
  {
    forall i :: 0 <= i < |ps| ==> IsWord(ps[i].0) && IsWord(ps[i].1) && ':' !in ps[i].0
  }

  /** No key is given twice. */
  predicate DistinctKeys(ps: seq<(string, string)>)
  {
    forall i, j :: 0 <= i < j < |ps| ==> ps[i].0 != ps[j].0
  }
}

/** What the directive format promises, proved about the functions above. */
module DirectiveFacts {
  import opened Wrappers
  import opened Text
  import opened Lists
  import opened Directives

  /** A key is in the table exactly when some item sets it. */
  lemma {:induction false} TableKeys<T>(items: seq<T>, entry: T -> Option<(string, string)>, key: string)
    ensures key in Table(items, entry) <==> exists i :: 0 <= i < |items| && Sets(entry, items[i], key)
    decreases |items|
  {
    if items != [] {
      var init := items[..|items| - 1];
      TableKeys(init, entry, key);
      assert forall i :: 0 <= i < |init| ==> init[i] == items[i];
    }
  }

  /** A repeated key keeps the value of the last item that sets it. */
  lemma {:induction false} TableLastWins<T>(items: seq<T>, entry: T -> Option<(string, string)>,
                                            key: string, j: nat)
    requires j < |items| && Sets(entry, items[j], key)
    requires forall i :: j < i < |items| ==> !Sets(entry, items[i], key)
    ensures key in Table(items, entry) && Table(items, entry)[key] == entry(items[j]).value.1
    decreases |items|
  {
    var init := items[..|items| - 1];
    if j < |items| - 1 {
      assert forall i :: j < i < |init| ==> init[i] == items[i];
      TableLastWins(init, entry, key, j);
    }
  }

  /** A segment without ':' is dropped. */
  lemma DropsColonless(segs: seq<string>, segment: string)
    requires ':' !in segment
    ensures ParamsOf(segs + [segment]) == ParamsOf(segs)
  {
    assert (segs + [segment])[..|segs|] == segs;
  }

  /** Splitting at '|' peels off the text before the first bar. */
  lemma SplitBar(a: string, b: string)
    requires '|' !in a
    ensures Split(a + "|" + b, '|') == [a] + Split(b, '|')
  {
    var s := a + "|" + b;
    IndexOfAfter(a, '|', b);
    assert s[..|a|] == a && s[|a| + 1..] == b;
  }

  /** The segments of a line are the stripped text before its first bar, then the segments of the rest. */
  lemma SegmentsBar(a: string, b: string)
    requires '|' !in a
    ensures Segments(a + "|" + b) == [Strip(a)] + Segments(b)
  {
    SplitBar(a, b);
    assert ([a] + Split(b, '|'))[1..] == Split(b, '|');
  }

  /** A rendered parameter is a stripped segment without a bar. */
  lemma FieldIsSegment(key: string, value: string)
    requires IsWord(key) && IsWord(value)
    ensures IsStripped(Field(key, value)) && '|' !in Field(key, value)
  {
    var f := Field(key, value);
    assert f == key + ": " + value;
    assert f[0] == key[0] && f[|f| - 1] == value[|value| - 1];
  }

  /** A line without a bar is one segment. */
  lemma SegmentsNoBar(pre: string, x: string)
    requires AllSpace(pre) && '|' !in pre && IsStripped(x) && '|' !in x
    ensures Segments(pre + x) == [x]
  {
    assert Split(pre + x, '|') == [pre + x];
    StripPadded(pre, x, []);
    assert pre + x + [] == pre + x;
  }

  /** The first bar of a rendered line follows its head. */
  lemma RenderParamsBar(head: string, ps: seq<(string, string)>)
    requires ps != []
    ensures head + RenderParams(ps)
         == (head + " ") + "|" + (" " + Field(ps[0].0, ps[0].1) + RenderParams(ps[1..]))
  {
  }

  /** The segments of a rendered line: the head, then one `KEY: value` per parameter. */
  lemma {:induction false} SegmentsOfRender(pre: string, x: string, ps: seq<(string, string)>)
    requires AllSpace(pre) && '|' !in pre && IsStripped(x) && '|' !in x
    requires WellFormedParams(ps)
    ensures Segments(pre + x + RenderParams(ps)) == [x] + Fields(ps)
    decreases |ps|
  {
    if ps == [] {
      assert pre + x + RenderParams(ps) == pre + x;
      SegmentsNoBar(pre, x);
    } else {
      var f := Field(ps[0].0, ps[0].1);
      FieldIsSegment(ps[0].0, ps[0].1);
      assert WellFormedParams(ps[1..]) by {
        assert forall i :: 0 <= i < |ps| - 1 ==> ps[1..][i] == ps[i + 1];
      }
      SegmentsOfRender(" ", f, ps[1..]);
      RenderParamsBar(pre + x, ps);
      SegmentsBar(pre + x + " ", " " + f + RenderParams(ps[1..]));
      StripPadded(pre, x, " ");
    }
  }

  /** The verb comes back from `ACTION: VERB`. */
  lemma ActionTypeOfRendered(verb: string)
    requires IsWord(verb) && ':' !in verb
    ensures ActionType(ActionPrefix + " " + verb) == verb
  {
    var s := ActionPrefix + " " + verb;
    assert s[..|ActionPrefix|] == ActionPrefix;
    assert s[|ActionPrefix|..] == " " + verb;
    ContainsNeedsChar(" " + verb, ActionPrefix, ':');
    RemoveAbsent(" " + verb, ActionPrefix);
    StripPadded(" ", verb, []);
    assert " " + verb + [] == " " + verb;
  }

  /** A rendered parameter is read back as its key and value. */
  lemma EntryOfField(key: string, value: string)
    requires IsWord(key) && IsWord(value) && ':' !in key
    ensures Entry(Field(key, value)) == Some((key, value))
  {
    var f := Field(key, value);
    assert f == key + [':'] + (" " + value);
    IndexOfAfter(key, ':', " " + value);
    assert f[..|key|] == key && f[|key| + 1..] == " " + value;
    assert SplitAtColon(f) == Some((key, " " + value));
    StripStripped(key);
    StripPadded(" ", value, []);
    assert " " + value + [] == " " + value;
  }

  /** The table of rendered parameters maps each key to its value and holds nothing else. */
  lemma ParamsOfFields(ps: seq<(string, string)>)
    requires WellFormedParams(ps) && DistinctKeys(ps)
    ensures forall i :: 0 <= i < |ps| ==>
              ps[i].0 in ParamsOf(Fields(ps)) && ParamsOf(Fields(ps))[ps[i].0] == ps[i].1
    ensures forall key :: key in ParamsOf(Fields(ps)) ==> exists i :: 0 <= i < |ps| && ps[i].0 == key
  {
    var fields := Fields(ps);
    forall i | 0 <= i < |ps|
      ensures ps[i].0 in ParamsOf(fields) && ParamsOf(fields)[ps[i].0] == ps[i].1
    {
      EntryOfField(ps[i].0, ps[i].1);
      forall j | i < j < |ps|
        ensures !Sets(Entry, fields[j], ps[i].0)
      {
        EntryOfField(ps[j].0, ps[j].1);
      }
      TableLastWins(fields, Entry, ps[i].0, i);
    }
    forall key | key in ParamsOf(fields)
      ensures exists i :: 0 <= i < |ps| && ps[i].0 == key
    {
      TableKeys(fields, Entry, key);
      var i :| 0 <= i < |fields| && Sets(Entry, fields[i], key);
      EntryOfField(ps[i].0, ps[i].1);
    }
  }

  /** The head of a rendered line is one stripped segment. */
  lemma HeadIsSegment(verb: string)
    requires IsWord(verb)
    ensures IsStripped(ActionPrefix + " " + verb) && '|' !in ActionPrefix + " " + verb
  {
    var head := ActionPrefix + " " + verb;
    assert head == "ACTION: " + verb;
    assert head[0] == 'A' && head[|head| - 1] == verb[|verb| - 1];
  }

  /** A stripped head without bars followed by rendered parameters splits into the head and the fields. */
  lemma SegmentsAfterHead(head: string, ps: seq<(string, string)>)
    requires IsStripped(head) && '|' !in head
    requires WellFormedParams(ps)
    ensures Segments(head + RenderParams(ps)) == [head] + Fields(ps)
  {
    var empty: string := [];
    assert empty + head == head;
    SegmentsOfRender(empty, head, ps);
  }

  /** The segments of a rendered line: its head, then its fields. */
  lemma RenderSegments(verb: string, ps: seq<(string, string)>)
    requires IsWord(verb)
    requires WellFormedParams(ps)
    ensures Segments(Render(verb, ps)) == [ActionPrefix + " " + verb] + Fields(ps)
  {
    HeadIsSegment(verb);
    SegmentsAfterHead(ActionPrefix + " " + verb, ps);
  }

  /** Parsing a rendered line gives back its verb and the table of its fields. */
  lemma ParseRendered(verb: string, ps: seq<(string, string)>)
    requires IsWord(verb) && ':' !in verb
    requires WellFormedParams(ps)
    ensures ParseDirective(Render(verb, ps)) == Directive(verb, ParamsOf(Fields(ps)))
  {
    RenderSegments(verb, ps);
    ParseSegments(Render(verb, ps), ActionPrefix + " " + verb, Fields(ps));
    ActionTypeOfRendered(verb);
  }

  /**
   * Rendering a directive and parsing the line gives it back: the verb,
   * and a table that maps each key to its value and holds nothing else.
   */
  lemma DirectiveRoundTrip(verb: string, ps: seq<(string, string)>)
    requires IsWord(verb) && ':' !in verb
    requires WellFormedParams(ps) && DistinctKeys(ps)
    ensures ParseDirective(Render(verb, ps)).verb == verb
    ensures forall i :: 0 <= i < |ps| ==>
              ps[i].0 in ParseDirective(Render(verb, ps)).params
              && ParseDirective(Render(verb, ps)).params[ps[i].0] == ps[i].1
    ensures forall key :: key in ParseDirective(Render(verb, ps)).params ==>
              exists i :: 0 <= i < |ps| && ps[i].0 == key
  {
    ParseRendered(verb, ps);
    ParamsOfFields(ps);
  }

  /** A line is parsed from its segments: the verb from the first, the table from the others. */
  lemma ParseSegments(line: string, head: string, rest: seq<string>)
    requires Segments(line) == [head] + rest
    ensures ParseDirective(line) == Directive(ActionType(head), ParamsOf(rest))
  {
    assert ([head] + rest)[1..] == rest;
  }

  /**
   * A reply made of natural lines followed by an action line is split back
   * into exactly those lines and that action.
   */
  lemma ReplyRoundTrip(natural: seq<string>, action: string)
    requires forall i :: 0 <= i < |natural| ==> '\n' !in natural[i] && !IsActionLine(natural[i])
    requires '\n' !in action && IsActionLine(action)
    ensures NaturalOf(Join(natural + [action], "\n")) == natural
    ensures ActionOf(Join(natural + [action], "\n")) == Some(action)
  {
    ReplyLines(natural, action);
    NaturalLinesKept(natural, action);
    LastIndexIs(natural + [action], IsActionLine, |natural|);
  }

  /** Lines without breaks, the last one non-empty, joined by '\n' split back into themselves. */
  lemma ReplyLines(natural: seq<string>, action: string)
    requires forall i :: 0 <= i < |natural| ==> '\n' !in natural[i]
    requires '\n' !in action && IsActionLine(action)
    ensures SplitLines(Join(natural + [action], "\n")) == natural + [action]
  {
    var lines := natural + [action];
    SplitJoin(lines, '\n');
    SplitLinesJoinEnd(natural, action);
  }

  /** Only the trailing action line is filtered out of natural lines followed by it. */
  lemma NaturalLinesKept(natural: seq<string>, action: string)
    requires forall i :: 0 <= i < |natural| ==> !IsActionLine(natural[i])
    requires IsActionLine(action)
    ensures Filter(natural + [action], (line: string) => !IsActionLine(line)) == natural
  {
    FilterAppend(natural, [action], (line: string) => !IsActionLine(line));
    FilterKeepsAll(natural, (line: string) => !IsActionLine(line));
    assert Filter([action], (line: string) => !IsActionLine(line)) == [];
  }

  /** Rendered parameters hold no line break. */
  lemma {:induction false} RenderParamsOneLine(ps: seq<(string, string)>)
    requires WellFormedParams(ps)
    ensures '\n' !in RenderParams(ps)
    decreases |ps|
  {
    if ps != [] {
      assert WellFormedParams(ps[1..]) by {
        assert forall i :: 0 <= i < |ps| - 1 ==> ps[1..][i] == ps[i + 1];
      }
      RenderParamsOneLine(ps[1..]);
      var f := Field(ps[0].0, ps[0].1);
      assert RenderParams(ps) == " | " + f + RenderParams(ps[1..]);
      assert f == ps[0].0 + ": " + ps[0].1;
    }
  }

  /** A rendered directive is one action line. */
  lemma RenderIsActionLine(verb: string, ps: seq<(string, string)>)
    requires IsWord(verb) && WellFormedParams(ps)
    ensures IsActionLine(Render(verb, ps)) && '\n' !in Render(verb, ps)
  {
    RenderParamsOneLine(ps);
    var line := Render(verb, ps);
    assert line == ActionPrefix + (" " + verb + RenderParams(ps));
    assert line[..|ActionPrefix|] == ActionPrefix;
    assert ActionPrefix == "ACTION:";
  }

  /** A join ends with its last piece. */
  lemma {:induction false} SplitLinesJoinEnd(natural: seq<string>, action: string)
    requires action != []
    ensures var reply := Join(natural + [action], "\n");
            |reply| >= |action| && reply[|reply| - |action|..] == action
    decreases |natural|
  {
    if natural != [] {
      assert (natural + [action])[1..] == natural[1..] + [action];
      SplitLinesJoinEnd(natural[1..], action);
    } else {
      assert natural + [action] == [action];
    }
  }
}
