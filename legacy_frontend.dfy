/** The older browser front end served from sclh/static/sclh.js, which builds
    its markup with a `{n}` placeholder formatter and inserts values without
    escaping them. */
module LegacyFrontend {
  import opened Decimal
  import Frontend

  /** What `args[n]` gives for the digit string `n`: JavaScript looks the
      string up as a property name, so only the canonical spelling of an
      index below the argument count finds an argument; anything else is
      `undefined`, printed as "undefined". */
  function Lookup(n: string, args: seq<string>): (v: string)
    requires AllDigits(n)
  {
    if Canonical(n) && ParseNat(n) < |args| then args[ParseNat(n)] else "undefined"
  }

  /** Argument `k`, as a placeholder with the printed index `k` finds it. */
  lemma LookupIndex(k: nat, args: seq<string>)
    ensures Lookup(NatToString(k), args) == if k < |args| then args[k] else "undefined"
  {
    ParseNatToString(k);
  }

  /** An index spelled with a leading zero finds nothing. */
  lemma LookupLeadingZero(k: nat, args: seq<string>)
    ensures Lookup("0" + NatToString(k), args) == "undefined"
  {
    var n := "0" + NatToString(k);
    assert AllDigits(n) by {
      assert forall i :: 1 <= i < |n| ==> n[i] == NatToString(k)[i - 1];
    }
    assert |n| > 1 && n[0] == '0';
  }

  /** The length of the digits of the `{digits}` placeholder that starts
      `t`, or 0 when `t` does not start with one. */
  function PlaceholderDigits(t: string): (k: nat)
    ensures k > 0 ==> k + 1 < |t| && AllDigits(t[1..k + 1])
  {
    if t == [] || t[0] != '{' then 0
    else
      var k := DigitRun(t[1..]);
      assert t[1..][..k] == t[1..k + 1];
      if 0 < k && k + 1 < |t| && t[k + 1] == '}' then k else 0
  }

  /** String.prototype.format: one left-to-right pass of the global replace
      of `\{(\d+)\}`, each match replaced by the argument it names. */
  function Format(t: string, args: seq<string>): (r: string)
    decreases |t|
  {
    if t == [] then []
    else
      var k := PlaceholderDigits(t);
      if k > 0 then Lookup(t[1..k + 1], args) + Format(t[k + 2..], args)
      else [t[0]] + Format(t[1..], args)
  }

  /** Text outside placeholders, braces around anything but digits
      included, is copied unchanged. */
  lemma {:induction false} FormatIdentity(t: string, args: seq<string>)
    requires forall i :: 0 <= i < |t| ==> PlaceholderDigits(t[i..]) == 0
    ensures Format(t, args) == t
    decreases |t|
  {
    if t != [] {
      var u := t[1..];
      forall i | 0 <= i < |u|
        ensures PlaceholderDigits(u[i..]) == 0
      {
        assert PlaceholderDigits(t[i + 1..]) == 0;
        assert u[i..] == t[i + 1..];
      }
      FormatIdentity(u, args);
      assert PlaceholderDigits(t[0..]) == 0 && t[0..] == t;
      assert t == [t[0]] + u;
    }
  }

  /** A prefix without `{` is copied and the formatting carries on after it. */
  lemma {:induction false} FormatPlainAppend(p: string, x: string, args: seq<string>)
    requires '{' !in p
    ensures Format(p + x, args) == p + Format(x, args)
    decreases |p|
  {
    if p == [] {
      assert p + x == x;
    } else {
      assert (p + x)[0] == p[0] && (p + x)[1..] == p[1..] + x;
      FormatPlainAppend(p[1..], x, args);
      assert p == [p[0]] + p[1..];
    }
  }

  /** A brace, digits and a closing brace make a placeholder with those
      digits. */
  lemma PlaceholderOf(n: string, x: string)
    requires n != [] && AllDigits(n)
    ensures PlaceholderDigits("{" + n + "}" + x) == |n|
    ensures ("{" + n + "}" + x)[1..|n| + 1] == n && ("{" + n + "}" + x)[|n| + 2..] == x
  {
    var t := "{" + n + "}" + x;
    assert t[1..] == n + ("}" + x);
    DigitRunOf(n, "}" + x);
    assert t[|n| + 1] == '}';
  }

  /** Text without `{` is copied unchanged. */
  lemma FormatPlain(p: string, args: seq<string>)
    requires '{' !in p
    ensures Format(p, args) == p
  {
    FormatPlainAppend(p, [], args);
    assert p + [] == p;
  }

  /** Substitution is a single pass: placeholder `k` becomes argument `k`
      (or "undefined"), inserted as it is even when it contains placeholders
      itself, and the formatting carries on after the placeholder. */
  lemma FormatPlaceholder(k: nat, x: string, args: seq<string>)
    ensures Format("{" + NatToString(k) + "}" + x, args)
         == (if k < |args| then args[k] else "undefined") + Format(x, args)
  {
    var n := NatToString(k);
    var t := "{" + n + "}" + x;
    PlaceholderOf(n, x);
    assert Format(t, args) == Lookup(n, args) + Format(x, args);
    LookupIndex(k, args);
  }

  /** An argument that is itself a placeholder is not expanded again. */
  lemma FormatNotRecursive()
    ensures Format("{0}", ["{1}", "x"]) == "{1}"
  {
    FormatPlaceholder(0, "", ["{1}", "x"]);
    assert "{" + NatToString(0) + "}" + "" == "{0}";
  }

  /** Braces around non-digits stay, and an index with a leading zero or at
      or beyond the argument count becomes "undefined". */
  lemma FormatEdgeCases()
    ensures Format("{x}", ["a"]) == "{x}"
    ensures Format("{01}", ["a", "b"]) == "undefined"
    ensures Format("{2}", ["a", "b"]) == "undefined"
  {
    FormatPlaceholder(2, "", ["a", "b"]);
    assert "{" + NatToString(2) + "}" + "" == "{2}";
    var t := "{01}";
    DigitRunOf("01", "}");
    assert t[1..] == "01" + "}";
    assert t[1..3] == "01";
  }

  /** The fixed parts of the corporation logo cell, around the id. */
  const LogoHead := "<td class=\"blank_thumb\">" + "<img src=\"https://" + "imageserver.eveonline" + ".com/Corporation/"
  const LogoTail := "_64.png\"" + " height=\"32\"" + " width=\"32\"></td>"

  /** The templates groupRow formats. */
  const LogoTemplate := LogoHead + "{0}" + LogoTail
  const AllianceTemplate := "  ({0})"
  const NameTemplate := "<td {0}>{1}{2}</td>"

  /** groupRow: the header row of a corporation group, with the class
      chosen as in the newer front end. */
  function GroupRow(group: string, allianceName: string, corpId: int, corpDanger: int, npcCorp: bool): string {
    var img := Format(LogoTemplate, [IntToString(corpId)]);
    var corpClass := Frontend.CorpClass(corpDanger, npcCorp);
    var alliance := if allianceName != "" then Format(AllianceTemplate, [allianceName]) else "";
    img + Format(NameTemplate, [corpClass, group, alliance])
  }

  /** A placeholder spelled with the canonical index of an argument
      becomes that argument. */
  lemma FormatAtPlaceholder(n: string, rest: string, args: seq<string>)
    requires Canonical(n) && ParseNat(n) < |args|
    ensures Format("{" + n + "}" + rest, args) == args[ParseNat(n)] + Format(rest, args)
  {
    PlaceholderOf(n, rest);
  }

  /** A brace-free prefix and a placeholder spelled with the canonical index
      of an argument become the prefix and that argument. */
  lemma FormatStep(pre: string, n: string, rest: string, args: seq<string>)
    requires '{' !in pre
    requires Canonical(n) && ParseNat(n) < |args|
    ensures Format(pre + "{" + n + "}" + rest, args) == pre + args[ParseNat(n)] + Format(rest, args)
  {
    var mid := "{" + n + "}" + rest;
    assert pre + "{" + n + "}" + rest == pre + mid;
    FormatPlainAppend(pre, mid, args);
    FormatAtPlaceholder(n, rest, args);
  }

  /** A template with one placeholder `{0}` between brace-free text. */
  lemma FormatOne(head: string, tail: string, arg: string)
    requires '{' !in head && '{' !in tail
    ensures Format(head + "{0}" + tail, [arg]) == head + arg + tail
  {
    assert head + "{0}" + tail == head + "{" + "0" + "}" + tail;
    assert ParseNat("0") == 0;
    FormatStep(head, "0", tail, [arg]);
    FormatPlain(tail, [arg]);
  }

  lemma NoBraceJoin(a: string, b: string)
    requires '{' !in a && '{' !in b
    ensures '{' !in a + b
  {
  }

  lemma LogoCell(corpId: int)
    ensures Format(LogoTemplate, [IntToString(corpId)]) == LogoHead + IntToString(corpId) + LogoTail
  {
    assert '{' !in "<td class=\"blank_thumb\">" && '{' !in "<img src=\"https://";
    NoBraceJoin("<td class=\"blank_thumb\">", "<img src=\"https://");
    assert '{' !in "imageserver.eveonline" && '{' !in ".com/Corporation/";
    NoBraceJoin("<td class=\"blank_thumb\">" + "<img src=\"https://", "imageserver.eveonline");
    NoBraceJoin("<td class=\"blank_thumb\">" + "<img src=\"https://" + "imageserver.eveonline", ".com/Corporation/");
    assert '{' !in "_64.png\"" && '{' !in " height=\"32\"" && '{' !in " width=\"32\"></td>";
    NoBraceJoin("_64.png\"", " height=\"32\"");
    NoBraceJoin("_64.png\"" + " height=\"32\"", " width=\"32\"></td>");
    FormatOne(LogoHead, LogoTail, IntToString(corpId));
  }

  lemma AllianceSuffix(allianceName: string)
    ensures Format(AllianceTemplate, [allianceName]) == "  (" + allianceName + ")"
  {
    var args := [allianceName];
    assert AllianceTemplate == "  (" + "{" + "0" + "}" + ")";
    FormatStep("  (", "0", ")", args);
    FormatPlain(")", args);
  }

  lemma NameCell(corpClass: string, group: string, alliance: string)
    ensures Format(NameTemplate, [corpClass, group, alliance]) == "<td " + corpClass + ">" + group + alliance + "</td>"
  {
    var args := [corpClass, group, alliance];
    var r2 := "" + "{" + "2" + "}" + "</td>";
    var r1 := ">" + "{" + "1" + "}" + r2;
    assert NameTemplate == "<td " + "{" + "0" + "}" + r1;
    assert ParseNat("0") == 0 && ParseNat("1") == 1 && ParseNat("2") == 2;
    calc {
      Format(NameTemplate, args);
      { FormatStep("<td ", "0", r1, args); }
      "<td " + corpClass + Format(r1, args);
      { FormatStep(">", "1", r2, args); }
      "<td " + corpClass + (">" + group + Format(r2, args));
      { FormatStep("", "2", "</td>", args); }
      "<td " + corpClass + (">" + group + ("" + alliance + Format("</td>", args)));
      { FormatPlain("</td>", args); }
      "<td " + corpClass + (">" + group + ("" + alliance + "</td>"));
      { NameJoin(corpClass, group, alliance); }
      "<td " + corpClass + ">" + group + alliance + "</td>";
    }
  }

  lemma NameJoin(corpClass: string, group: string, alliance: string)
    ensures "<td " + corpClass + (">" + group + ("" + alliance + "</td>"))
         == "<td " + corpClass + ">" + group + alliance + "</td>"
  {
  }

  /** The values are inserted verbatim: neither the group nor the alliance
      name is escaped, and the alliance appears in parentheses exactly when
      its name is not empty. */
  lemma GroupRowVerbatim(group: string, allianceName: string, corpId: int, corpDanger: int, npcCorp: bool)
    ensures GroupRow(group, allianceName, corpId, corpDanger, npcCorp)
         == LogoHead + IntToString(corpId) + LogoTail
            + "<td " + Frontend.CorpClass(corpDanger, npcCorp) + ">" + group
            + (if allianceName != "" then "  (" + allianceName + ")" else "") + "</td>"
  {
    var corpClass := Frontend.CorpClass(corpDanger, npcCorp);
    var formatted := if allianceName != "" then Format(AllianceTemplate, [allianceName]) else "";
    var suffix := if allianceName != "" then "  (" + allianceName + ")" else "";
    var logo := LogoHead + IntToString(corpId) + LogoTail;
    calc {
      GroupRow(group, allianceName, corpId, corpDanger, npcCorp);
      Format(LogoTemplate, [IntToString(corpId)]) + Format(NameTemplate, [corpClass, group, formatted]);
      { LogoCell(corpId); NameCell(corpClass, group, formatted); }
      logo + ("<td " + corpClass + ">" + group + formatted + "</td>");
      { if allianceName != "" { AllianceSuffix(allianceName); } }
      logo + ("<td " + corpClass + ">" + group + suffix + "</td>");
      { RowJoin(logo, corpClass, group, suffix); }
      logo + "<td " + corpClass + ">" + group + suffix + "</td>";
    }
  }

  lemma RowJoin(logo: string, corpClass: string, group: string, suffix: string)
    ensures logo + ("<td " + corpClass + ">" + group + suffix + "</td>")
         == logo + "<td " + corpClass + ">" + group + suffix + "</td>"
  {
  }

  /** So unlike the newer front end, a group name holding markup reaches the
      page as markup. */
  lemma GroupRowInjects()
    ensures !Frontend.Safe(GroupRow("<b>", "", 1, 0, false))
  {
    GroupRowVerbatim("<b>", "", 1, 0, false);
    var r := GroupRow("<b>", "", 1, 0, false);
    var i := |LogoHead + IntToString(1) + LogoTail + "<td " + Frontend.CorpClass(0, false) + ">"|;
    assert r[i] == '<';
  }

  /** The row of the older results grid, with the fields formatKills reads. */
  datatype Row = Row(
    kills: int,
    recentExplorerTotal: int,
    recentKillTotal: int,
    lastKillTime: string,
    killsLastWeek: int)

  const KillsHead := "<table class=\"embedded\"><thead><tr><td>Explorer Ships Killed</td><td>Total Killed</td><td class=\"dt-body-center\">Since</td><td>Kills in Last Week</td></tr></thead><tr><td class=\"dt-body-center\">"
  const KillsBetween := "</td><td class=\"dt-body-center\">"
  const KillsTail := "</td></tr></table>"

  /** formatKills: nothing for a character without kills, otherwise the
      summary table with the values joined in as they are. */
  function FormatKills(d: Row): (r: string)
    ensures r == "" <==> d.kills == 0
  {
    if d.kills == 0 then ""
    else
      KillsHead + IntToString(d.recentExplorerTotal) + KillsBetween + IntToString(d.recentKillTotal)
      + KillsBetween + d.lastKillTime + KillsBetween + IntToString(d.killsLastWeek) + KillsTail
  }

  /** The time of the last kill is inserted without escaping. */
  lemma FormatKillsInjects()
    ensures !Frontend.Safe(FormatKills(Row(1, 0, 0, "<i>", 0)))
  {
    var r := FormatKills(Row(1, 0, 0, "<i>", 0));
    var i := |KillsHead + IntToString(0) + KillsBetween + IntToString(0) + KillsBetween|;
    assert r[i] == '<';
  }

  /** dataFormatting.corp_age: the age in days followed by " days". */
  function CorpAge(data: int): (r: string)
    ensures |r| > 5 && r[|r| - 5..] == " days"
  {
    IntToString(data) + " days"
  }

  /** The age reads back from its text, so distinct ages show differently. */
  lemma CorpAgeReads(a: int, b: int)
    ensures a >= 0 ==> ParseNat(CorpAge(a)[..|CorpAge(a)| - 5]) == a
    ensures CorpAge(a) == CorpAge(b) ==> a == b
  {
    var ra := CorpAge(a);
    assert ra[..|ra| - 5] == IntToString(a);
    if a >= 0 {
      ParseNatToString(a);
    }
    if CorpAge(a) == CorpAge(b) {
      assert CorpAge(b)[..|CorpAge(b)| - 5] == IntToString(b);
      IntToStringInjective(a, b);
    }
  }
}
