/**
 * The match formatting of extensions/lookup/vex.py: the short label of a
 * match (practice, qualification, quarter-final, semi-final, final) and the
 * one-line summary of a match from one team's point of view. The match
 * records come from the VEX database; here they are plain values.
 */
module Vex {
  import opened Wrappers
  import opened Strings

  /** One match record: its round code, numbers, alliances and scores. */
  datatype Match = Match(round: int, matchnum: nat, instance: nat,
                         red1: string, red2: string, blue1: string, blue2: string,
                         redscore: int, bluescore: int)

  /** matchnum: the label of rounds 1 to 5; any other round has none. */
  function MatchNum(m: Match): (r: Option<string>)
    ensures r.Some? <==> 1 <= m.round <= 5
  {
    if m.round == 1 then Some("P" + NatToString(m.matchnum))
    else if m.round == 2 then Some("Q" + NatToString(m.matchnum))
    else if m.round == 3 then Some("QF" + NatToString(m.matchnum) + "-" + NatToString(m.instance))
    else if m.round == 4 then Some("SF" + NatToString(m.matchnum) + "-" + NatToString(m.instance))
    else if m.round == 5 then Some("Final " + NatToString(m.instance))
    else None
  }

  /** What a label records: the round and the numbers it shows (0 where it shows none). */
  datatype Label = Label(round: int, matchnum: nat, instance: nat)

  function Shown(m: Match): Label
  {
    if m.round == 1 || m.round == 2 then Label(m.round, m.matchnum, 0)
    else if m.round == 5 then Label(5, 0, m.instance)
    else Label(m.round, m.matchnum, m.instance)
  }

  /** Reading a label back, by its first characters. */
  function ParseLabel(s: string): Option<Label>
  {
    if s == [] then None
    else if s[0] == 'F' then
      if |s| >= 6 && s[..6] == "Final " then
        match ParseDigits(s[6..])
        case Some(i) => Some(Label(5, 0, i))
        case None => None
      else None
    else if (s[0] == 'Q' || s[0] == 'S') && |s| >= 2 && s[1] == 'F' then
      match ParsePair(s[2..])
      case Some(p) => Some(Label(if s[0] == 'Q' then 3 else 4, p.0, p.1))
      case None => None
    else if s[0] == 'P' || s[0] == 'Q' then
      match ParseDigits(s[1..])
      case Some(n) => Some(Label(if s[0] == 'P' then 1 else 2, n, 0))
      case None => None
    else None
  }

  /** The "<match>-<instance>" tail of a quarter- or semi-final label. */
  function ParsePair(s: string): Option<(nat, nat)>
  {
    var parts := Split(s, '-');
    if |parts| == 2 && ParseDigits(parts[0]).Some? && ParseDigits(parts[1]).Some? then
      Some((ParseDigits(parts[0]).value, ParseDigits(parts[1]).value))
    else None
  }

  lemma ParseNat(n: nat)
    ensures ParseDigits(NatToString(n)) == Some(n)
    ensures '-' !in NatToString(n)
  {
    NatToStringValue(n);
  }

  lemma SplitNumbers(a: nat, b: nat)
    ensures Split(NatToString(a) + "-" + NatToString(b), '-') == [NatToString(a), NatToString(b)]
  {
    ParseNat(a);
    ParseNat(b);
    SplitAfterPiece(NatToString(a), '-', NatToString(b));
    SplitNoSeparator(NatToString(b), '-');
  }

  /** Every label reads back as the round and numbers of its match: labels identify matches. */
  lemma LabelRoundTrip(m: Match)
    requires 1 <= m.round <= 5
    ensures ParseLabel(MatchNum(m).value) == Some(Shown(m))
  {
    if m.round == 1 || m.round == 2 {
      NumberedLabel(m);
    } else if m.round == 3 || m.round == 4 {
      EliminationLabel(m);
    } else {
      FinalLabel(m);
    }
  }

  lemma NumberedLabel(m: Match)
    requires m.round == 1 || m.round == 2
    ensures ParseLabel(MatchNum(m).value) == Some(Shown(m))
  {
    var s, a := MatchNum(m).value, NatToString(m.matchnum);
    ParseNat(m.matchnum);
    assert s == [if m.round == 1 then 'P' else 'Q'] + a;
    assert s[1..] == a;
    assert IsDigit(a[0]);
  }

  lemma EliminationLabel(m: Match)
    requires m.round == 3 || m.round == 4
    ensures ParseLabel(MatchNum(m).value) == Some(Shown(m))
  {
    var head := if m.round == 3 then "QF" else "SF";
    assert MatchNum(m).value == head + NatToString(m.matchnum) + "-" + NatToString(m.instance);
    PairLabel(head, m.matchnum, m.instance);
  }

  /** A quarter- or semi-final label reads back as its kind and both numbers. */
  lemma PairLabel(head: string, a: nat, b: nat)
    requires head == "QF" || head == "SF"
    ensures ParseLabel(head + NatToString(a) + "-" + NatToString(b))
         == Some(Label(if head == "QF" then 3 else 4, a, b))
  {
    var tail := NatToString(a) + "-" + NatToString(b);
    var s := head + tail;
    assert head + NatToString(a) + "-" + NatToString(b) == s;
    assert s[0] == head[0] && s[1] == 'F' && s[2..] == tail;
    PairTail(a, b);
  }

  lemma PairTail(a: nat, b: nat)
    ensures ParsePair(NatToString(a) + "-" + NatToString(b)) == Some((a, b))
  {
    ParseNat(a);
    ParseNat(b);
    SplitNumbers(a, b);
  }

  lemma FinalLabel(m: Match)
    requires m.round == 5
    ensures ParseLabel(MatchNum(m).value) == Some(Shown(m))
  {
    var s, b := MatchNum(m).value, NatToString(m.instance);
    ParseNat(m.instance);
    assert s == "Final " + b;
    assert s[6..] == b;
  }

  predicate OnRed(m: Match, team: string) { team == m.red1 || team == m.red2 }
  predicate OnBlue(m: Match, team: string) { team == m.blue1 || team == m.blue2 }

  /** A team name, bolded when it is the team asked about. */
  function Mark(t: string, team: string): (r: string)
    ensures r == t <==> t != team
  {
    if t == team then "**" + t + "**" else t
  }

  /** One alliance: its two team names joined by a space. */
  function Alliance(a: string, b: string, team: string): string
  {
    Mark(a, team) + " " + Mark(b, team)
  }

  /** The scores, the team's own side bolded and the other italic. */
  function Score(m: Match, team: string): string
  {
    if OnRed(m, team) then " **" + IntToString(m.redscore) + "** - *" + IntToString(m.bluescore) + "* "
    else " *" + IntToString(m.redscore) + "* - **" + IntToString(m.bluescore) + "** "
  }

  /** A score in bold (two stars) or in italics (one star). */
  function Emphasis(text: string, strong: bool): string
  {
    if strong then "**" + text + "**" else "*" + text + "*"
  }

  /** Exactly one side is bold: the red score when the team is on red, the blue score otherwise. */
  lemma ScoreBoldsOwnSide(m: Match, team: string)
    ensures Score(m, team)
         == " " + Emphasis(IntToString(m.redscore), OnRed(m, team)) + " - "
            + Emphasis(IntToString(m.bluescore), !OnRed(m, team)) + " "
  {
    var red, blue := IntToString(m.redscore), IntToString(m.bluescore);
    if OnRed(m, team) {
      assert " **" + red + "** - *" + blue + "* " == " " + ("**" + red + "**") + " - " + ("*" + blue + "*") + " ";
    } else {
      assert " *" + red + "* - **" + blue + "** " == " " + ("*" + red + "*") + " - " + ("**" + blue + "**") + " ";
    }
  }

  /** The score between the winner's colour squares (purple both sides for a tie). */
  function Framed(m: Match, team: string): (r: string)
    ensures |r| == |Score(m, team)| + 2 && r[1..|r| - 1] == Score(m, team)
    ensures r[0] == '🟥' <==> m.redscore > m.bluescore
    ensures r[|r| - 1] == '🟦' <==> m.bluescore > m.redscore
    ensures r[0] == '🟪' <==> m.redscore == m.bluescore
  {
    if m.redscore > m.bluescore then "🟥" + Score(m, team) + "⬛"
    else if m.bluescore > m.redscore then "⬛" + Score(m, team) + "🟦"
    else "🟪" + Score(m, team) + "🟪"
  }

  /** The result mark from the team's point of view. */
  function Outcome(m: Match, team: string): (r: string)
    ensures r == "🔸" <==> m.redscore == m.bluescore
    ensures r == "✅" <==> (m.redscore > m.bluescore && OnRed(m, team)) || (m.bluescore > m.redscore && OnBlue(m, team))
    ensures r in {"✅", "❌", "🔸"}
  {
    if m.redscore > m.bluescore then (if OnRed(m, team) then "✅" else "❌")
    else if m.bluescore > m.redscore then (if OnBlue(m, team) then "✅" else "❌")
    else "🔸"
  }

  /** The same match with the alliances' colours exchanged. */
  function Swap(m: Match): Match
  {
    m.(red1 := m.blue1, red2 := m.blue2, blue1 := m.red1, blue2 := m.red2,
       redscore := m.bluescore, bluescore := m.redscore)
  }

  /** The result does not depend on which colour the team's alliance played. */
  lemma OutcomeColourBlind(m: Match, team: string)
    ensures Outcome(Swap(m), team) == Outcome(m, team)
  {
  }

  /** The seven tab-separated fields of a summary line. */
  function Fields(m: Match, team: string): seq<string>
  {
    var num := match MatchNum(m) case Some(s) => s case None => "None";
    [num, "-", Alliance(m.red1, m.red2, team), Framed(m, team), Alliance(m.blue1, m.blue2, team), "-", Outcome(m, team)]
  }

  /** matchstr: the summary line. */
  function MatchStr(m: Match, team: string): string
  {
    Join(Fields(m, team), "\t")
  }

  predicate NoTab(s: string) { '\t' !in s }

  lemma NumberNoTab(n: int)
    ensures NoTab(IntToString(n))
  {
  }

  lemma NatNoTab(n: nat)
    ensures NoTab(NatToString(n))
  {
  }

  lemma AllianceNoTab(a: string, b: string, team: string)
    requires NoTab(a) && NoTab(b)
    ensures NoTab(Alliance(a, b, team))
  {
    assert NoTab(Mark(a, team)) && NoTab(Mark(b, team));
  }

  lemma FramedNoTab(m: Match, team: string)
    ensures NoTab(Framed(m, team))
  {
    NumberNoTab(m.redscore);
    NumberNoTab(m.bluescore);
    assert NoTab(Score(m, team));
  }

  lemma LabelNoTab(m: Match)
    ensures NoTab(match MatchNum(m) case Some(s) => s case None => "None")
  {
    NatNoTab(m.matchnum);
    NatNoTab(m.instance);
  }

  lemma FieldsNoTab(m: Match, team: string)
    requires NoTab(m.red1) && NoTab(m.red2) && NoTab(m.blue1) && NoTab(m.blue2)
    ensures forall i :: 0 <= i < |Fields(m, team)| ==> '\t' !in Fields(m, team)[i]
  {
    LabelNoTab(m);
    AllianceNoTab(m.red1, m.red2, team);
    AllianceNoTab(m.blue1, m.blue2, team);
    FramedNoTab(m, team);
    assert NoTab(Outcome(m, team));
  }

  /**
   * When no team name holds a tab, splitting a summary line at tabs recovers
   * its seven fields: label, "-", red alliance, framed score, blue alliance,
   * "-", result.
   */
  lemma MatchStrFields(m: Match, team: string)
    requires NoTab(m.red1) && NoTab(m.red2) && NoTab(m.blue1) && NoTab(m.blue2)
    ensures Split(MatchStr(m, team), '\t') == Fields(m, team)
  {
    FieldsNoTab(m, team);
    SplitJoin(Fields(m, team), '\t');
  }
}
