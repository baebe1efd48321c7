/**
 * The help command of bot/internal/help_command.py: the one-line description
 * and the signature of a command, the help text of one command, the listing
 * of a cog's or a group's commands, and the bot-wide overview that groups the
 * cogs' command lists by category.
 *
 * Python's None and the empty string are both false in the source's tests;
 * here an absent brief, help text or signature is the empty string. Which
 * commands a user may run (filter_commands) is decided by discord.py: the
 * command lists given here are already filtered.
 */
module HelpCommand {
  import opened Wrappers
  import opened Strings

  /** What the help command reads of a command. */
  datatype Command = Command(qualifiedName: string, signature: string, brief: string, help: string)

  /**
   * What it reads of a cog: its name, its category, and the text its
   * custom_bot_help hook answers when the cog has one.
   */
  datatype Cog = Cog(name: string, category: string, customBotHelp: Option<string>)

  /** get_command_signature: prefix and qualified name, then the parameters if there are any. */
  function Signature(prefix: string, c: Command): (sig: string)
    ensures prefix + c.qualifiedName <= sig
    ensures c.signature == "" <==> |sig| == |prefix| + |c.qualifiedName|
    ensures c.signature != "" ==> sig[|prefix| + |c.qualifiedName|..] == " " + c.signature
  {
    prefix + c.qualifiedName + (if c.signature != "" then " " + c.signature else "")
  }

  /** The short text after " | ": the brief, else the first line of the help. */
  function Summary(c: Command): (s: string)
    ensures c.brief != "" ==> s == c.brief
    ensures c.brief == "" ==> s <= c.help && '\n' !in s
    ensures c.brief == "" ==> s == c.help || c.help[|s|] == '\n'
  {
    if c.brief != "" then c.brief else FirstLine(c.help)
  }

  /** get_command_description: a bullet, the command in backticks, then " | " and its summary if it has one. */
  function Description(prefix: string, c: Command): string
  {
    "• `" + prefix + c.qualifiedName
    + (if c.signature != "" then " " + c.signature + "` " else "`")
    + (if c.brief != "" then " | " + c.brief else if c.help != "" then " | " + FirstLine(c.help) else "")
  }

  /** The text that closes the backticks: a space follows them when the command has parameters. */
  function Closing(c: Command): (s: string)
    ensures s == "`" || s == "` "
    ensures s == "` " <==> c.signature != ""
  {
    if c.signature != "" then "` " else "`"
  }

  /** send_command_help's text: the help, else the brief, else nothing. */
  function HelpText(c: Command): (t: string)
    ensures t == "" <==> c.help == "" && c.brief == ""
    ensures c.help != "" ==> t == c.help
  {
    if c.help != "" then c.help else if c.brief != "" then c.brief else ""
  }

  /**
   * A description is the signature in backticks followed by the summary,
   * and it has a summary exactly when the command has some help text: the
   * brief when there is one, else the first line of the full help.
   */
  lemma DescriptionParts(prefix: string, c: Command)
    ensures Description(prefix, c)
         == "• `" + Signature(prefix, c) + Closing(c)
            + (if HelpText(c) != "" then " | " + Summary(c) else "")
    ensures c.brief == "" ==> Summary(c) == FirstLine(HelpText(c))
  {
    var name := prefix + c.qualifiedName;
    var tail := if HelpText(c) != "" then " | " + Summary(c) else "";
    assert "• `" + prefix + c.qualifiedName == "• `" + name;
    if c.signature != "" {
      assert " " + c.signature + "` " == (" " + c.signature) + Closing(c);
      assert Signature(prefix, c) == name + (" " + c.signature);
    } else {
      assert Signature(prefix, c) == name;
    }
  }

  /**
   * A description is a single line when the prefix, the name, the parameters
   * and the brief are: only the first line of a multi-line help is shown.
   */
  lemma DescriptionOneLine(prefix: string, c: Command)
    requires '\n' !in prefix && '\n' !in c.qualifiedName && '\n' !in c.signature && '\n' !in c.brief
    ensures '\n' !in Description(prefix, c)
  {
    DescriptionParts(prefix, c);
    var d := Description(prefix, c);
    var tail := if HelpText(c) != "" then " | " + Summary(c) else "";
    assert '\n' !in Signature(prefix, c);
    assert '\n' !in tail;
    assert d == "• `" + Signature(prefix, c) + Closing(c) + tail;
  }

  /** The descriptions of a list of commands, in order. */
  function Descriptions(prefix: string, cmds: seq<Command>): (ds: seq<string>)
    ensures |ds| == |cmds|
    ensures forall i :: 0 <= i < |cmds| ==> ds[i] == Description(prefix, cmds[i])
  {
    if cmds == [] then [] else [Description(prefix, cmds[0])] + Descriptions(prefix, cmds[1..])
  }

  /**
   * The body of send_cog_help and send_group_help: the descriptions one per
   * line under the given field name, or, when no command is usable, a note
   * naming the cog or the group.
   */
  function Listing(prefix: string, owner: string, cmds: seq<Command>): (r: Result<string, string>)
    ensures r.Failure? <==> cmds == []
    ensures r.Failure? ==> r.error == "No commands from " + owner + " are usable here."
  {
    if cmds == [] then Failure("No commands from " + owner + " are usable here.")
    else Success(Join(Descriptions(prefix, cmds), "\n"))
  }

  /** Each line of a listing is the description of one command, in order. */
  lemma ListingLines(prefix: string, owner: string, cmds: seq<Command>)
    requires cmds != []
    requires '\n' !in prefix
    requires forall i :: 0 <= i < |cmds| ==>
      '\n' !in cmds[i].qualifiedName && '\n' !in cmds[i].signature && '\n' !in cmds[i].brief
    ensures Split(Listing(prefix, owner, cmds).value, '\n') == Descriptions(prefix, cmds)
  {
    var ds := Descriptions(prefix, cmds);
    forall i | 0 <= i < |ds|
      ensures '\n' !in ds[i]
    {
      DescriptionOneLine(prefix, cmds[i]);
    }
    SplitJoin(ds, '\n');
  }

  /** A command as the overview lists it: its full name in backticks. */
  function Quoted(prefix: string, c: Command): string
  {
    "`" + prefix + c.qualifiedName + "`"
  }

  function QuotedAll(prefix: string, cmds: seq<Command>): (qs: seq<string>)
    ensures |qs| == |cmds|
    ensures forall i :: 0 <= i < |cmds| ==> qs[i] == Quoted(prefix, cmds[i])
  {
    if cmds == [] then [] else [Quoted(prefix, cmds[0])] + QuotedAll(prefix, cmds[1..])
  }

  /** The overview's text for a cog without its own hook: its quoted commands, space separated, then a line break. */
  function DefaultValue(prefix: string, cmds: seq<Command>): (v: string)
    ensures |v| > 0 && v[|v| - 1] == '\n'
  {
    Join(QuotedAll(prefix, cmds), " ") + "\n"
  }

  /** `t in s` holds when s is t with text on either side. */
  lemma {:induction false} ContainsMiddle(a: string, t: string, b: string)
    ensures Contains(a + t + b, t)
    decreases |a|
  {
    if a == [] {
      assert t <= a + t + b;
    } else {
      ContainsMiddle(a[1..], t, b);
      assert (a + t + b)[1..] == a[1..] + t + b;
    }
  }

  /** Every piece of a join sits between some text before and after it. */
  lemma {:induction false} JoinPiece(parts: seq<string>, sep: string, k: nat) returns (before: string, after: string)
    requires k < |parts|
    ensures Join(parts, sep) == before + parts[k] + after
    decreases k
  {
    if |parts| == 1 {
      before, after := "", "";
    } else if k == 0 {
      before, after := "", sep + Join(parts[1..], sep);
    } else {
      var b, a := JoinPiece(parts[1..], sep, k - 1);
      before, after := parts[0] + sep + b, a;
    }
  }

  /** The default overview text lists every usable command of the cog. */
  lemma DefaultValueLists(prefix: string, cmds: seq<Command>, k: nat)
    requires k < |cmds|
    ensures Contains(DefaultValue(prefix, cmds), Quoted(prefix, cmds[k]))
  {
    var before, after := JoinPiece(QuotedAll(prefix, cmds), " ", k);
    assert DefaultValue(prefix, cmds) == before + Quoted(prefix, cmds[k]) + (after + "\n");
    ContainsMiddle(before, Quoted(prefix, cmds[k]), after + "\n");
  }

  /**
   * What one entry of the bot mapping adds to the overview: nothing for the
   * None cog or a cog without usable commands; otherwise its category and
   * its text, the cog's name in italics followed by its hook's answer or the
   * default listing.
   */
  function Entry(prefix: string, item: (Option<Cog>, seq<Command>)): (e: Option<(string, string)>)
    ensures e.Some? <==> item.0.Some? && item.1 != []
    ensures e.Some? ==> e.value.0 == item.0.value.category
    ensures e.Some? && item.0.value.customBotHelp.None? ==>
      e.value.1 == "*" + item.0.value.name + "* - " + DefaultValue(prefix, item.1)
    ensures e.Some? && item.0.value.customBotHelp.Some? ==>
      e.value.1 == "*" + item.0.value.name + "* - " + item.0.value.customBotHelp.value
  {
    if item.1 == [] then None
    else match item.0
      case None => None
      case Some(cog) =>
        var value := match cog.customBotHelp case Some(v) => v case None => DefaultValue(prefix, item.1);
        Some((cog.category, "*" + cog.name + "* - " + value))
  }

  /** The (category, text) pairs of a bot mapping, in the mapping's order. */
  function Entries(prefix: string, mapping: seq<(Option<Cog>, seq<Command>)>): (es: seq<(string, string)>)
    ensures |es| <= |mapping|
  {
    if mapping == [] then []
    else
      var rest := Entries(prefix, mapping[..|mapping| - 1]);
      match Entry(prefix, mapping[|mapping| - 1])
      case Some(e) => rest + [e]
      case None => rest
  }

  /** The categories in the order they are first met. */
  function Order(entries: seq<(string, string)>): seq<string>
  {
    if entries == [] then []
    else
      var cats := Order(entries[..|entries| - 1]);
      var c := entries[|entries| - 1].0;
      if c in cats then cats else cats + [c]
  }

  /** The order lists every category that occurs, each once. */
  lemma {:induction false} OrderCategories(entries: seq<(string, string)>)
    ensures forall c :: c in Order(entries) <==> exists k :: 0 <= k < |entries| && entries[k].0 == c
    ensures forall i, j :: 0 <= i < j < |Order(entries)| ==> Order(entries)[i] != Order(entries)[j]
    decreases |entries|
  {
    if entries != [] {
      var init := entries[..|entries| - 1];
      OrderCategories(init);
      forall c | c in Order(entries)
        ensures exists k :: 0 <= k < |entries| && entries[k].0 == c
      {
        if c in Order(init) {
          var k :| 0 <= k < |init| && init[k].0 == c;
          assert entries[k].0 == c;
        } else {
          assert entries[|entries| - 1].0 == c;
        }
      }
      forall c | exists k :: 0 <= k < |entries| && entries[k].0 == c
        ensures c in Order(entries)
      {
        var k :| 0 <= k < |entries| && entries[k].0 == c;
        if k < |init| {
          assert init[k].0 == c;
        }
      }
    }
  }

  /** Once met, a category keeps its place: the order of a prefix is a prefix of the order. */
  lemma {:induction false} OrderPrefix(entries: seq<(string, string)>, i: nat)
    requires i <= |entries|
    ensures Order(entries[..i]) <= Order(entries)
    decreases |entries| - i
  {
    if i < |entries| {
      OrderPrefix(entries, i + 1);
      assert entries[..i + 1][..i] == entries[..i];
    } else {
      assert entries[..i] == entries;
    }
  }

  /** The texts of one category, in the order they are met. */
  function LinesOf(entries: seq<(string, string)>, c: string): seq<string>
  {
    if entries == [] then []
    else
      var last := entries[|entries| - 1];
      LinesOf(entries[..|entries| - 1], c) + (if last.0 == c then [last.1] else [])
  }

  /** A category has texts exactly when it occurs, and each of its texts was entered under it. */
  lemma {:induction false} LinesOfCategory(entries: seq<(string, string)>, c: string)
    ensures LinesOf(entries, c) != [] <==> exists k :: 0 <= k < |entries| && entries[k].0 == c
    ensures forall line :: line in LinesOf(entries, c) ==> (c, line) in entries
    decreases |entries|
  {
    if entries != [] {
      var init := entries[..|entries| - 1];
      LinesOfCategory(init, c);
      if LinesOf(init, c) != [] {
        var k :| 0 <= k < |init| && init[k].0 == c;
        assert entries[k].0 == c;
      }
      if exists k :: 0 <= k < |entries| && entries[k].0 == c {
        var k :| 0 <= k < |entries| && entries[k].0 == c;
        if k < |init| {
          assert init[k].0 == c;
        }
      }
      forall line | line in LinesOf(entries, c)
        ensures (c, line) in entries
      {
        if line in LinesOf(init, c) {
          assert (c, line) in init;
        }
      }
    }
  }

  /** The entries of one more mapping item: the earlier ones, then its own if it has one. */
  lemma EntriesStep(prefix: string, mapping: seq<(Option<Cog>, seq<Command>)>, i: nat)
    requires i < |mapping|
    ensures Entry(prefix, mapping[i]).None? ==> Entries(prefix, mapping[..i + 1]) == Entries(prefix, mapping[..i])
    ensures Entry(prefix, mapping[i]).Some? ==>
      Entries(prefix, mapping[..i + 1]) == Entries(prefix, mapping[..i]) + [Entry(prefix, mapping[i]).value]
  {
    assert mapping[..i + 1][..i] == mapping[..i];
  }

  /** Appending an entry appends its category if new, and its text to its category. */
  lemma AppendEntry(es: seq<(string, string)>, e: (string, string))
    ensures Order(es + [e]) == if e.0 in Order(es) then Order(es) else Order(es) + [e.0]
    ensures forall c :: LinesOf(es + [e], c) == LinesOf(es, c) + (if e.0 == c then [e.1] else [])
  {
    assert (es + [e])[..|es|] == es;
  }

  /** One pass of the grouping loop: a new category is added at the end, then the text under its category. */
  method Insert(ghost es: seq<(string, string)>, order: seq<string>, description: map<string, seq<string>>, e: (string, string))
    returns (order': seq<string>, description': map<string, seq<string>>)
    requires order == Order(es)
    requires forall c :: c in description <==> c in order
    requires forall c :: c in description ==> description[c] == LinesOf(es, c)
    ensures order' == Order(es + [e])
    ensures forall c :: c in description' <==> c in order'
    ensures forall c :: c in description' ==> description'[c] == LinesOf(es + [e], c)
  {
    AppendEntry(es, e);
    var (cat, text) := e;
    order', description' := order, description;
    if cat !in description' {
      OrderCategories(es);
      LinesOfCategory(es, cat);
      description' := description'[cat := []];
      order' := order' + [cat];
    }
    description' := description'[cat := description'[cat] + [text]];
  }

  /**
   * The grouping loop of send_bot_help: the dictionary from category to
   * texts, and its keys in insertion order.
   */
  method Group(prefix: string, mapping: seq<(Option<Cog>, seq<Command>)>)
    returns (order: seq<string>, description: map<string, seq<string>>)
    ensures order == Order(Entries(prefix, mapping))
    ensures forall c :: c in description <==> c in order
    ensures forall c :: c in description ==> description[c] == LinesOf(Entries(prefix, mapping), c)
  {
    description := map[];
    order := [];
    ghost var es: seq<(string, string)> := [];
    var i := 0;
    while i < |mapping|
      invariant 0 <= i <= |mapping|
      invariant es == Entries(prefix, mapping[..i])
      invariant order == Order(es)
      invariant forall c :: c in description <==> c in order
      invariant forall c :: c in description ==> description[c] == LinesOf(es, c)
    {
      EntriesStep(prefix, mapping, i);
      var entry := Entry(prefix, mapping[i]);
      if entry.Some? {
        order, description := Insert(es, order, description, entry.value);
        es := es + [entry.value];
      }
      i := i + 1;
    }
    assert mapping[..i] == mapping;
  }

  /** The last loop of send_bot_help: one field per category, its texts run together. */
  method MakeFields(order: seq<string>, description: map<string, seq<string>>) returns (fields: seq<(string, string)>)
    requires forall c :: c in order ==> c in description
    ensures |fields| == |order|
    ensures forall j :: 0 <= j < |order| ==> fields[j] == (order[j], Join(description[order[j]], ""))
  {
    fields := [];
    var k := 0;
    while k < |order|
      invariant 0 <= k <= |order|
      invariant |fields| == k
      invariant forall j :: 0 <= j < k ==> fields[j] == (order[j], Join(description[order[j]], ""))
    {
      fields := fields + [(order[k], Join(description[order[k]], ""))];
      k := k + 1;
    }
  }

  /**
   * send_bot_help: one field per category, in the order the categories
   * were first met, holding its texts run together.
   */
  method BotHelp(prefix: string, mapping: seq<(Option<Cog>, seq<Command>)>)
    returns (title: string, fields: seq<(string, string)>)
    ensures title == "Hi, I'm Breqbot! Beep boop :robot:. Try `" + prefix + "info`!"
    ensures var es := Entries(prefix, mapping);
      |fields| == |Order(es)|
      && forall j :: 0 <= j < |fields| ==>
           fields[j].0 == Order(es)[j] && fields[j].1 == Join(LinesOf(es, fields[j].0), "")
  {
    title := "Hi, I'm Breqbot! Beep boop :robot:. Try `" + prefix + "info`!";
    var order, description := Group(prefix, mapping);
    fields := MakeFields(order, description);
  }
}
