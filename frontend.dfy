/** The browser front end served from static/sclh.js: HTML escaping and the
    string builders that render character links, corporation group rows and
    the kill-summary table of the results grid. */
module Frontend {
  import opened Results
  import opened Decimal

  const EveImageServer := "https://images.evetech.net"

  /** The five characters that have a meaning in HTML markup. */
  predicate Special(c: char) {
    c == '&' || c == '<' || c == '>' || c == '"' || c == '\''
  }

  /** The text that stands for `c` in escaped output. */
  function EntityOf(c: char): string {
    match c
    case '&' => "&amp;"
    case '<' => "&lt;"
    case '>' => "&gt;"
    case '"' => "&quot;"
    case '\'' => "&#39;"
    case _ => [c]
  }

  /** Replaces each special character by its entity, leaving every other
      character in place. */
  function Escape(s: string): (r: string)
    ensures |r| >= |s|
  {
    if s == [] then [] else EntityOf(s[0]) + Escape(s[1..])
  }

  /** Text without special characters is left as it is. */
  lemma {:induction false} EscapePlain(s: string)
    requires forall i :: 0 <= i < |s| ==> !Special(s[i])
    ensures Escape(s) == s
    decreases |s|
  {
    if s != [] {
      EscapePlain(s[1..]);
      assert s == [s[0]] + s[1..];
    }
  }

  /** escapeHtml: null and undefined render as the empty string, anything
      else is escaped. */
  function EscapeHtml(str: Option<string>): (r: string)
    ensures str == None ==> r == ""
    ensures str.Some? ==> Unescape(r) == str.value
  {
    match str
    case None => ""
    case Some(s) => EscapeRoundTrip(s); Escape(s)
  }

  predicate StartsWith(s: string, p: string) {
    |p| <= |s| && s[..|p|] == p
  }

  /** One of the five entities starts at position `i` of `r`. */
  predicate EntityAt(r: string, i: nat)
    requires i <= |r|
  {
    var t := r[i..];
    StartsWith(t, "&amp;") || StartsWith(t, "&lt;") || StartsWith(t, "&gt;")
    || StartsWith(t, "&quot;") || StartsWith(t, "&#39;")
  }

  /** Text that can be placed in markup without opening a tag or closing an
      attribute: no raw `<`, `>`, `"` or `'`, and every `&` begins one of the
      five entities. */
  predicate Safe(r: string) {
    forall i :: 0 <= i < |r| ==>
      r[i] != '<' && r[i] != '>' && r[i] != '"' && r[i] != '\''
      && (r[i] == '&' ==> EntityAt(r, i))
  }

  /** The character that the text `r` starts with after decoding, and the
      length of its encoded form. */
  function DecodeOne(r: string): (p: (char, nat))
    requires r != []
    ensures 1 <= p.1 <= |r|
  {
    if StartsWith(r, "&amp;") then ('&', 5)
    else if StartsWith(r, "&lt;") then ('<', 4)
    else if StartsWith(r, "&gt;") then ('>', 4)
    else if StartsWith(r, "&quot;") then ('"', 6)
    else if StartsWith(r, "&#39;") then ('\'', 5)
    else (r[0], 1)
  }

  /** The decoding a browser applies to the five entities. */
  function Unescape(r: string): (s: string)
    ensures |s| <= |r|
    decreases |r|
  {
    if r == [] then []
    else
      var p := DecodeOne(r);
      [p.0] + Unescape(r[p.1..])
  }

  lemma StartsWithAppend(s: string, p: string, x: string)
    requires StartsWith(s, p)
    ensures StartsWith(s + x, p)
  {
    assert (s + x)[..|p|] == s[..|p|];
  }

  /** Safe text stays safe when joined. */
  lemma SafeAppend(a: string, b: string)
    requires Safe(a) && Safe(b)
    ensures Safe(a + b)
  {
    forall i | 0 <= i < |a + b| && (a + b)[i] == '&'
      ensures EntityAt(a + b, i)
    {
      if i < |a| {
        assert EntityAt(a, i);
        assert (a + b)[i..] == a[i..] + b;
        var t := a[i..];
        if StartsWith(t, "&amp;") { StartsWithAppend(t, "&amp;", b); }
        else if StartsWith(t, "&lt;") { StartsWithAppend(t, "&lt;", b); }
        else if StartsWith(t, "&gt;") { StartsWithAppend(t, "&gt;", b); }
        else if StartsWith(t, "&quot;") { StartsWithAppend(t, "&quot;", b); }
        else { StartsWithAppend(t, "&#39;", b); }
      } else {
        assert (a + b)[i..] == b[i - |a|..];
        assert EntityAt(b, i - |a|);
      }
    }
  }

  lemma EntitySafe(c: char)
    ensures Safe(EntityOf(c))
  {
    var e := EntityOf(c);
    if Special(c) {
      assert EntityAt(e, 0);
    }
  }

  /** Escaped output is safe, whatever the input. */
  lemma {:induction false} EscapeSafe(s: string)
    ensures Safe(Escape(s))
    decreases |s|
  {
    if s != [] {
      EntitySafe(s[0]);
      EscapeSafe(s[1..]);
      SafeAppend(EntityOf(s[0]), Escape(s[1..]));
    }
  }

  /** Escaping works character by character: it distributes over joining. */
  lemma {:induction false} EscapeAppend(a: string, b: string)
    ensures Escape(a + b) == Escape(a) + Escape(b)
    decreases |a|
  {
    if a == [] {
      assert a + b == b;
    } else {
      assert (a + b)[0] == a[0] && (a + b)[1..] == a[1..] + b;
      calc {
        Escape(a + b);
        EntityOf(a[0]) + Escape(a[1..] + b);
        { EscapeAppend(a[1..], b); }
        EntityOf(a[0]) + (Escape(a[1..]) + Escape(b));
        (EntityOf(a[0]) + Escape(a[1..])) + Escape(b);
      }
    }
  }

  lemma NotStartsWith(r: string, p: string, k: nat)
    requires k < |r| && k < |p| && r[k] != p[k]
    ensures !StartsWith(r, p)
  {
    if |p| <= |r| {
      assert r[..|p|][k] == r[k];
    }
  }

  /** A character other than `&` decodes to itself. */
  lemma UnescapePlain(c: char, y: string)
    requires c != '&'
    ensures Unescape([c] + y) == [c] + Unescape(y)
  {
    var r := [c] + y;
    NotStartsWith(r, "&amp;", 0);
    NotStartsWith(r, "&lt;", 0);
    NotStartsWith(r, "&gt;", 0);
    NotStartsWith(r, "&quot;", 0);
    NotStartsWith(r, "&#39;", 0);
    assert DecodeOne(r) == (c, 1);
    assert r[1..] == y;
  }

  /** Decoding text that starts with a character's escaped form gives the
      character back, then decodes the rest. */
  lemma UnescapeEntity(c: char, y: string)
    ensures Unescape(EntityOf(c) + y) == [c] + Unescape(y)
  {
    var e := EntityOf(c);
    var r := e + y;
    assert r[..|e|] == e && r[|e|..] == y;
    if !Special(c) {
      UnescapePlain(c, y);
    } else {
      if c == '<' {
        NotStartsWith(r, "&amp;", 1);
      } else if c == '>' {
        NotStartsWith(r, "&amp;", 1);
        NotStartsWith(r, "&lt;", 1);
      } else if c == '"' {
        NotStartsWith(r, "&amp;", 1);
        NotStartsWith(r, "&lt;", 1);
        NotStartsWith(r, "&gt;", 1);
      } else if c == '\'' {
        NotStartsWith(r, "&amp;", 1);
        NotStartsWith(r, "&lt;", 1);
        NotStartsWith(r, "&gt;", 1);
        NotStartsWith(r, "&quot;", 1);
      }
      assert DecodeOne(r) == (c, |e|);
    }
  }

  /** Decoding undoes escaping, also in front of any further text. */
  lemma {:induction false} UnescapeEscapeAppend(s: string, x: string)
    ensures Unescape(Escape(s) + x) == s + Unescape(x)
    decreases |s|
  {
    if s == [] {
      assert Escape(s) + x == x;
    } else {
      var e, rest := EntityOf(s[0]), Escape(s[1..]);
      assert Escape(s) == e + rest;
      assert Escape(s) + x == e + (rest + x);
      calc {
        Unescape(Escape(s) + x);
        Unescape(e + (rest + x));
        { UnescapeEntity(s[0], Escape(s[1..]) + x); }
        [s[0]] + Unescape(Escape(s[1..]) + x);
        { UnescapeEscapeAppend(s[1..], x); }
        [s[0]] + (s[1..] + Unescape(x));
        { assert s == [s[0]] + s[1..]; }
        s + Unescape(x);
      }
    }
  }

  /** Replacing the entities back in escaped output recovers the input. */
  lemma EscapeRoundTrip(s: string)
    ensures Unescape(Escape(s)) == s
  {
    UnescapeEscapeAppend(s, []);
    assert Escape(s) + [] == Escape(s);
  }

  /** Text without `&` decodes to itself, also in front of any further text. */
  lemma {:induction false} UnescapePlainAppend(p: string, x: string)
    requires forall i :: 0 <= i < |p| ==> p[i] != '&'
    ensures Unescape(p + x) == p + Unescape(x)
    decreases |p|
  {
    if p == [] {
      assert p + x == x;
    } else {
      assert p + x == [p[0]] + (p[1..] + x);
      calc {
        Unescape(p + x);
        Unescape([p[0]] + (p[1..] + x));
        { UnescapePlain(p[0], p[1..] + x); }
        [p[0]] + Unescape(p[1..] + x);
        { UnescapePlainAppend(p[1..], x); }
        [p[0]] + (p[1..] + Unescape(x));
        { assert p == [p[0]] + p[1..]; }
        p + Unescape(x);
      }
    }
  }

  /** The row of the results grid, with the fields the renderers read. */
  datatype Row = Row(
    name: string,
    characterId: int,
    hasKillboard: bool,
    kills: int,
    recentExplorerTotal: int,
    recentKillTotal: int,
    lastKillTime: string,
    killsLastWeek: int)

  function PortraitUrl(characterId: int): string {
    EveImageServer + "/characters/" + IntToString(characterId) + "/portrait"
  }

  /** dataFormatting.char_name: a link to the character's portrait whose text
      is the escaped name when the character has a killboard, otherwise the
      cell data as given. */
  function CharName(data: string, row: Row): (r: string)
    ensures !row.hasKillboard ==> r == data
  {
    if row.hasKillboard then
      "<a href=\"" + PortraitUrl(row.characterId) + "\" target=\"_blank\" rel=\"noopener\">"
      + Escape(row.name) + "</a>"
    else data
  }

  /** A linked name shows exactly the character's name, and its text cannot
      inject markup. */
  lemma CharNameLink(data: string, row: Row)
    requires row.hasKillboard
    ensures CharName(data, row)
         == "<a href=\"" + PortraitUrl(row.characterId) + "\" target=\"_blank\" rel=\"noopener\">"
            + Escape(row.name) + "</a>"
    ensures Safe(Escape(row.name)) && Unescape(Escape(row.name)) == row.name
  {
    EscapeSafe(row.name);
    EscapeRoundTrip(row.name);
  }

  /** Without a killboard the cell data goes into the grid unescaped: a
      name holding markup reaches the page as markup. */
  lemma CharNameRaw(row: Row)
    requires !row.hasKillboard
    ensures !Safe(CharName("<b>", row))
  {
    assert CharName("<b>", row)[0] == '<';
  }

  /** The class attribute of a group row. */
  function CorpClass(corpDanger: int, npcCorp: bool): (r: string)
    ensures r == "class=\"danger\"" <==> corpDanger > 50
    ensures r == "class=\"safe\"" <==> corpDanger <= 50 && npcCorp
    ensures r == "" <==> corpDanger <= 50 && !npcCorp
  {
    if corpDanger > 50 then "class=\"danger\""
    else if npcCorp then "class=\"safe\""
    else ""
  }

  function CorpLogoCell(corpId: int): string {
    "<td class=\"blank_thumb\"><img src=\"" + EveImageServer + "/corporations/"
    + IntToString(corpId) + "/logo\" height=\"32\" width=\"32\"></td>"
  }

  /** The escaped group name, followed by the escaped alliance name in
      parentheses when there is one. */
  function NameCell(group: string, allianceName: string): string {
    Escape(group) + (if allianceName != "" then "  (" + Escape(allianceName) + ")" else "")
  }

  /** groupRow: the header row of a corporation group. */
  function GroupRow(group: string, allianceName: string, corpId: int, corpDanger: int, npcCorp: bool): string {
    CorpLogoCell(corpId) + "<td " + CorpClass(corpDanger, npcCorp) + ">"
    + NameCell(group, allianceName) + "</td>"
  }

  /** The alliance suffix is safe and shows the alliance name as given. */
  lemma AllianceSuffixShows(allianceName: string)
    ensures var tail := "  (" + Escape(allianceName) + ")";
      Safe(tail) && Unescape(tail) == "  (" + allianceName + ")"
  {
    var ea := Escape(allianceName);
    var tail := "  (" + ea + ")";
    EscapeSafe(allianceName);
    assert Safe("  (") && Safe(")");
    SafeAppend("  (", ea);
    SafeAppend("  (" + ea, ")");
    assert tail == "  (" + (ea + ")");
    UnescapePlainAppend("  (", ea + ")");
    UnescapeEscapeAppend(allianceName, ")");
    UnescapePlainAppend(")", []);
    assert ")" + [] == ")";
  }

  /** The name cell is safe and displays the group name, with the alliance
      in parentheses exactly when the alliance name is not empty. */
  lemma NameCellShows(group: string, allianceName: string)
    ensures var cell := NameCell(group, allianceName);
      && Safe(cell)
      && Unescape(cell) == group + (if allianceName != "" then "  (" + allianceName + ")" else "")
  {
    var eg := Escape(group);
    EscapeSafe(group);
    if allianceName == "" {
      assert NameCell(group, allianceName) == eg;
      EscapeRoundTrip(group);
    } else {
      var tail := "  (" + Escape(allianceName) + ")";
      AllianceSuffixShows(allianceName);
      assert NameCell(group, allianceName) == eg + tail;
      SafeAppend(eg, tail);
      UnescapeEscapeAppend(group, tail);
    }
  }

  /** The name cell of a group row is safe and displays the group name, with
      the alliance in parentheses exactly when the alliance name is not
      empty. */
  lemma GroupRowDisplays(group: string, allianceName: string, corpId: int, corpDanger: int, npcCorp: bool)
    ensures var cell := NameCell(group, allianceName);
      GroupRow(group, allianceName, corpId, corpDanger, npcCorp)
        == CorpLogoCell(corpId) + "<td " + CorpClass(corpDanger, npcCorp) + ">" + cell + "</td>"
      && Safe(cell)
      && Unescape(cell) == group + (if allianceName != "" then "  (" + allianceName + ")" else "")
  {
    NameCellShows(group, allianceName);
  }

  /** The fixed parts of the kill-summary table, between its four cells. */
  const KillsHead := "<table class=\"embedded\">\n            <thead><tr>\n              <td>Explorer Ships Killed</td>\n              <td>Total Killed</td>\n              <td class=\"dt-body-center\">Since</td>\n              <td>Kills in Last Week</td>\n            </tr></thead>\n            <tbody>\n              <tr>\n                <td class=\"dt-body-center\">"
  const KillsBetween := "</td>\n                <td class=\"dt-body-center\">"
  const KillsTail := "</td>\n              </tr>\n            </tbody>\n          </table>"

  function KillsTable(explorer: string, total: string, since: string, lastWeek: string): string {
    KillsHead + explorer + KillsBetween + total + KillsBetween + since + KillsBetween + lastWeek + KillsTail
  }

  /** formatKills: nothing for a character without kills, otherwise the
      summary table. */
  function FormatKills(d: Row): (r: string)
    ensures r == "" <==> d.kills == 0
  {
    if d.kills == 0 then ""
    else
      KillsTable(IntToString(d.recentExplorerTotal), IntToString(d.recentKillTotal),
                 Escape(d.lastKillTime), IntToString(d.killsLastWeek))
  }

  /** The printed form of an integer is safe markup text. */
  lemma IntToStringSafe(n: int)
    ensures Safe(IntToString(n))
  {
    var s := IntToString(n);
    if n < 0 {
      assert forall i :: 1 <= i < |s| ==> s[1..][i - 1] == s[i];
    }
  }

  /** The table holds the explorer total, the kill total, the escaped time
      of the last kill and the kills of the last week, in that order; none
      of the inserted values can inject markup, and the time shows as
      given. */
  lemma FormatKillsCells(d: Row)
    requires d.kills != 0
    ensures FormatKills(d) == KillsTable(IntToString(d.recentExplorerTotal), IntToString(d.recentKillTotal),
                                         Escape(d.lastKillTime), IntToString(d.killsLastWeek))
    ensures Safe(IntToString(d.recentExplorerTotal)) && Safe(IntToString(d.recentKillTotal))
    ensures Safe(Escape(d.lastKillTime)) && Safe(IntToString(d.killsLastWeek))
    ensures Unescape(Escape(d.lastKillTime)) == d.lastKillTime
  {
    IntToStringSafe(d.recentExplorerTotal);
    IntToStringSafe(d.recentKillTotal);
    IntToStringSafe(d.killsLastWeek);
    EscapeSafe(d.lastKillTime);
    EscapeRoundTrip(d.lastKillTime);
  }
}
