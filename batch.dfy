/** serveData in sclh.go: the posted text is split into lines, each line
    is trimmed, short names and repeats are dropped and at most
    MaximumNames names are kept; the results are then streamed as a start
    marker, one record per successful lookup and a done marker carrying
    the counts. */
module Batch {
  import opened Results
  import opened Upstream
  import opened Store
  import opened Profile
  import Character

  const MaximumNames := 100

  // ---------------------------------------------------------------------
  // Splitting on \r\n, \n or a lone \r

  predicate IsBreak(ch: char) {
    ch == '\r' || ch == '\n'
  }

  /** The lines of `s`, the current line having begun with `cur`. A "\r"
      followed by "\n" is one break. */
  function Lines(s: string, cur: string): (ls: seq<string>)
    ensures |ls| >= 1
  {
    if s == [] then [cur]
    else if s[0] == '\r' && |s| > 1 && s[1] == '\n' then [cur] + Lines(s[2..], [])
    else if IsBreak(s[0]) then [cur] + Lines(s[1..], [])
    else Lines(s[1..], cur + [s[0]])
  }

  /** newlineRegex.Split(s, -1): never empty; the empty text is one empty
      line. */
  function SplitLines(s: string): (ls: seq<string>)
    ensures |ls| >= 1
  {
    Lines(s, [])
  }

  /** The text with every "\r\n" and every lone "\r" written as "\n". */
  function NormalizeBreaks(s: string): string {
    if s == [] then []
    else if s[0] == '\r' && |s| > 1 && s[1] == '\n' then "\n" + NormalizeBreaks(s[2..])
    else if IsBreak(s[0]) then "\n" + NormalizeBreaks(s[1..])
    else [s[0]] + NormalizeBreaks(s[1..])
  }

  function JoinLines(ls: seq<string>): string
    requires |ls| >= 1
  {
    if |ls| == 1 then ls[0] else ls[0] + "\n" + JoinLines(ls[1..])
  }

  predicate NoBreak(s: string) {
    '\r' !in s && '\n' !in s
  }

  lemma {:induction false} LinesNoBreak(s: string, cur: string)
    requires NoBreak(cur)
    ensures forall k :: 0 <= k < |Lines(s, cur)| ==> NoBreak(Lines(s, cur)[k])
    decreases |s|
  {
    if s == [] {
    } else if s[0] == '\r' && |s| > 1 && s[1] == '\n' {
      LinesNoBreak(s[2..], []);
    } else if IsBreak(s[0]) {
      LinesNoBreak(s[1..], []);
    } else {
      LinesNoBreak(s[1..], cur + [s[0]]);
    }
  }

  lemma JoinCons(line: string, ls: seq<string>)
    requires |ls| >= 1
    ensures JoinLines([line] + ls) == line + "\n" + JoinLines(ls)
  {
    assert ([line] + ls)[1..] == ls;
  }

  lemma {:induction false} LinesJoin(s: string, cur: string)
    ensures JoinLines(Lines(s, cur)) == cur + NormalizeBreaks(s)
    decreases |s|
  {
    if s == [] {
    } else if s[0] == '\r' && |s| > 1 && s[1] == '\n' {
      BreakJoin(s, 2, cur);
    } else if IsBreak(s[0]) {
      BreakJoin(s, 1, cur);
    } else {
      CharJoin(s, cur);
    }
  }

  /** LinesJoin at a character that is no break. */
  lemma {:induction false} CharJoin(s: string, cur: string)
    requires s != [] && !IsBreak(s[0])
    ensures JoinLines(Lines(s, cur)) == cur + NormalizeBreaks(s)
    decreases |s|, 0
  {
    assert Lines(s, cur) == Lines(s[1..], cur + [s[0]]);
    assert NormalizeBreaks(s) == [s[0]] + NormalizeBreaks(s[1..]);
    LinesJoin(s[1..], cur + [s[0]]);
    assert (cur + [s[0]]) + NormalizeBreaks(s[1..]) == cur + ([s[0]] + NormalizeBreaks(s[1..]));
  }

  /** LinesJoin at a break of `w` characters. */
  lemma {:induction false} BreakJoin(s: string, w: nat, cur: string)
    requires 1 <= w <= |s|
    requires Lines(s, cur) == [cur] + Lines(s[w..], [])
    requires NormalizeBreaks(s) == "\n" + NormalizeBreaks(s[w..])
    ensures JoinLines(Lines(s, cur)) == cur + NormalizeBreaks(s)
    decreases |s|, 0
  {
    var rest := s[w..];
    var x := NormalizeBreaks(rest);
    var ls := Lines(rest, []);
    LinesJoin(rest, []);
    assert [] + x == x;
    assert JoinLines(ls) == x;
    JoinCons(cur, ls);
    assert cur + "\n" + x == cur + ("\n" + x);
  }

  /** Text without a break only extends the current line. */
  lemma {:induction false} LinesOfPlainText(s: string, t: string, cur: string)
    requires NoBreak(s)
    ensures Lines(s + t, cur) == Lines(t, cur + s)
    decreases |s|
  {
    if s != [] {
      assert s == [s[0]] + s[1..];
      assert !IsBreak(s[0]) && NoBreak(s[1..]);
      assert (s + t)[0] == s[0] && (s + t)[1..] == s[1..] + t;
      LinesOfPlainText(s[1..], t, cur + [s[0]]);
      assert cur + [s[0]] + s[1..] == cur + s;
    } else {
      assert s + t == t && cur + s == cur;
    }
  }

  /** No line holds a break, and joining the lines with "\n" gives the
      text back with its breaks written as "\n"; a text without breaks is
      a single line. */
  lemma SplitLinesMeaning(s: string)
    ensures forall k :: 0 <= k < |SplitLines(s)| ==> NoBreak(SplitLines(s)[k])
    ensures JoinLines(SplitLines(s)) == NormalizeBreaks(s)
    ensures NoBreak(s) ==> SplitLines(s) == [s]
  {
    LinesNoBreak(s, []);
    LinesJoin(s, []);
    if NoBreak(s) {
      LinesOfPlainText(s, [], []);
      assert [] + s == s && s + [] == s;
    }
  }

  // ---------------------------------------------------------------------
  // strings.TrimSpace and len

  /** unicode.IsSpace: the ASCII white space, NEL, NBSP and the Unicode
      space separators. */
  predicate IsSpace(ch: char) {
    var n := ch as int;
    n == 0x20 || (0x09 <= n <= 0x0D) || n == 0x85 || n == 0xA0 || n == 0x1680
    || (0x2000 <= n <= 0x200A) || n == 0x2028 || n == 0x2029 || n == 0x202F
    || n == 0x205F || n == 0x3000
  }

  function TrimLeading(s: string): (r: string)
    ensures |r| <= |s| && r == s[|s| - |r|..]
    ensures r == [] || !IsSpace(r[0])
    ensures forall k :: 0 <= k < |s| - |r| ==> IsSpace(s[k])
  {
    if s != [] && IsSpace(s[0]) then TrimLeading(s[1..]) else s
  }

  function TrimTrailing(s: string): (r: string)
    ensures |r| <= |s| && r == s[..|r|]
    ensures r == [] || !IsSpace(r[|r| - 1])
    ensures forall k :: |r| <= k < |s| ==> IsSpace(s[k])
  {
    if s != [] && IsSpace(s[|s| - 1]) then TrimTrailing(s[..|s| - 1]) else s
  }

  /** strings.TrimSpace: the text between the leading and the trailing
      white space. It is a slice of the text with only white space before
      and after it, and it neither begins nor ends with white space. */
  function TrimSpace(s: string): (r: string)
    ensures |r| <= |s|
    ensures r == [] || (!IsSpace(r[0]) && !IsSpace(r[|r| - 1]))
    ensures exists i ::
      && 0 <= i && i + |r| <= |s| && r == s[i..][..|r|]
      && (forall k :: 0 <= k < i ==> IsSpace(s[k]))
      && (forall k :: i + |r| <= k < |s| ==> IsSpace(s[k]))
  {
    var l := TrimLeading(s);
    var r := TrimTrailing(l);
    TrimmedSlice(s, l, r);
    r
  }

  /** The text left by trimming both ends sits at offset |s| - |l|. */
  lemma TrimmedSlice(s: string, l: string, r: string)
    requires l == TrimLeading(s) && r == TrimTrailing(l)
    ensures var i := |s| - |l|;
      && i + |r| <= |s| && r == s[i..][..|r|]
      && (forall k :: 0 <= k < i ==> IsSpace(s[k]))
      && (forall k :: i + |r| <= k < |s| ==> IsSpace(s[k]))
  {
    var i := |s| - |l|;
    assert l == s[i..];
    forall k | i + |r| <= k < |s|
      ensures IsSpace(s[k])
    {
      assert s[k] == l[k - i];
    }
  }

  /** Trimming a trimmed text changes nothing. */
  lemma TrimSpaceIdempotent(s: string)
    ensures TrimSpace(TrimSpace(s)) == TrimSpace(s)
  {
    var r := TrimSpace(s);
    assert TrimLeading(r) == r;
    assert TrimTrailing(r) == r;
  }

  /** Bytes in the UTF-8 encoding of one character. */
  function Utf8Width(ch: char): (w: nat)
    ensures 1 <= w <= 4
  {
    if ch as int < 0x80 then 1 else if ch as int < 0x800 then 2
    else if ch as int < 0x10000 then 3 else 4
  }

  /** len of a Go string: its UTF-8 byte count. */
  function ByteLen(s: string): (n: nat)
    ensures |s| <= n <= 4 * |s|
  {
    if s == [] then 0 else Utf8Width(s[0]) + ByteLen(s[1..])
  }

  /** Two characters of the Latin-1 supplement already make 4 bytes. */
  lemma ByteLenExample()
    ensures ByteLen("ab") == 2 && ByteLen("éé") == 4
  {
  }

  // ---------------------------------------------------------------------
  // Normalisation

  /** The names the loop keeps from `raw`, having kept `acc` so far. */
  function Select(raw: seq<string>, acc: seq<string>): seq<string> {
    if raw == [] then acc
    else
      var n := TrimSpace(raw[0]);
      if ByteLen(n) < 3 || n in acc then Select(raw[1..], acc)
      else if |acc| + 1 >= MaximumNames then acc + [n]
      else Select(raw[1..], acc + [n])
  }

  /** The names serveData reads from the posted text. */
  function Normalize(text: string): seq<string> {
    Select(SplitLines(text), [])
  }

  /** The normalisation of serveData. */
  method NormalizeNames(text: string) returns (names: seq<string>)
    ensures names == Normalize(text)
  {
    names := KeepNames(SplitLines(text));
  }

  /** The normalisation loop of serveData, over the split lines. */
  method KeepNames(raw: seq<string>) returns (names: seq<string>)
    ensures names == Select(raw, [])
  {
    var seen: set<string> := {};
    names := [];
    var i := 0;
    while i < |raw|
      invariant 0 <= i <= |raw|
      invariant |names| < MaximumNames
      invariant forall x :: x in seen <==> x in names
      invariant Select(raw, []) == Select(raw[i..], names)
    {
      var n := TrimSpace(raw[i]);
      SelectStep(raw, i, names);
      assert n in seen <==> n in names;
      if ByteLen(n) < 3 || n in seen {
        i := i + 1;
        continue;
      }
      seen := seen + {n};
      names := names + [n];
      if |names| >= MaximumNames {
        return;
      }
      i := i + 1;
    }
    assert raw[i..] == [];
  }

  /** One step of Select, at position i of the lines. */
  lemma SelectStep(raw: seq<string>, i: nat, acc: seq<string>)
    requires i < |raw|
    ensures var n := TrimSpace(raw[i]);
      if ByteLen(n) < 3 || n in acc then Select(raw[i..], acc) == Select(raw[i + 1..], acc)
      else if |acc| + 1 >= MaximumNames then Select(raw[i..], acc) == acc + [n]
      else Select(raw[i..], acc) == Select(raw[i + 1..], acc + [n])
  {
    assert raw[i..][0] == raw[i] && raw[i..][1..] == raw[i + 1..];
  }

  /** The trimmed lines of at least three bytes, in input order. */
  function Candidates(raw: seq<string>): seq<string> {
    if raw == [] then []
    else
      var n := TrimSpace(raw[0]);
      if ByteLen(n) < 3 then Candidates(raw[1..]) else [n] + Candidates(raw[1..])
  }

  /** `acc` followed by the first occurrence of every element of `xs`
      not already there. */
  function Dedup(xs: seq<string>, acc: seq<string>): seq<string> {
    if xs == [] then acc
    else if xs[0] in acc then Dedup(xs[1..], acc)
    else Dedup(xs[1..], acc + [xs[0]])
  }

  function Take(s: seq<string>, n: nat): (r: seq<string>)
    ensures |r| == if |s| < n then |s| else n
    ensures r <= s
  {
    if |s| < n then s else s[..n]
  }

  predicate Distinct(s: seq<string>) {
    forall i, j :: 0 <= i < j < |s| ==> s[i] != s[j]
  }

  lemma {:induction false} DedupExtends(xs: seq<string>, acc: seq<string>)
    ensures acc <= Dedup(xs, acc)
    decreases |xs|
  {
    if xs != [] {
      if xs[0] in acc {
        DedupExtends(xs[1..], acc);
      } else {
        DedupExtends(xs[1..], acc + [xs[0]]);
      }
    }
  }

  lemma {:induction false} DedupMeaning(xs: seq<string>, acc: seq<string>)
    requires Distinct(acc)
    ensures Distinct(Dedup(xs, acc))
    ensures forall x :: x in Dedup(xs, acc) <==> x in acc || x in xs
    decreases |xs|
  {
    if xs != [] {
      if xs[0] in acc {
        DedupMeaning(xs[1..], acc);
      } else {
        DedupMeaning(xs[1..], acc + [xs[0]]);
      }
      assert xs == [xs[0]] + xs[1..];
    }
  }

  /** The loop's result is the distinct candidates, first occurrences in
      input order, cut to MaximumNames. */
  lemma {:induction false} SelectMeaning(raw: seq<string>, acc: seq<string>)
    requires |acc| < MaximumNames
    ensures Select(raw, acc) == Take(Dedup(Candidates(raw), acc), MaximumNames)
    decreases |raw|
  {
    if raw != [] {
      var n := TrimSpace(raw[0]);
      if ByteLen(n) < 3 {
        SelectMeaning(raw[1..], acc);
      } else {
        assert Candidates(raw) == [n] + Candidates(raw[1..]);
        assert ([n] + Candidates(raw[1..]))[1..] == Candidates(raw[1..]);
        if n in acc {
          SelectMeaning(raw[1..], acc);
        } else if |acc| + 1 >= MaximumNames {
          DedupExtends(Candidates(raw[1..]), acc + [n]);
        } else {
          SelectMeaning(raw[1..], acc + [n]);
        }
      }
    }
  }

  /** A candidate taken from a line without a break. */
  lemma CandidateOfLine(line: string)
    requires NoBreak(line)
    ensures TrimSpace(TrimSpace(line)) == TrimSpace(line) && NoBreak(TrimSpace(line))
  {
    TrimSpaceIdempotent(line);
  }

  lemma {:induction false} CandidatesWellFormed(raw: seq<string>)
    requires forall k :: 0 <= k < |raw| ==> NoBreak(raw[k])
    ensures forall n :: n in Candidates(raw) ==>
      ByteLen(n) >= 3 && TrimSpace(n) == n && NoBreak(n)
    decreases |raw|
  {
    if raw != [] {
      assert forall k :: 0 <= k < |raw[1..]| ==> raw[1..][k] == raw[k + 1];
      CandidatesWellFormed(raw[1..]);
      CandidateOfLine(raw[0]);
    }
  }

  /** Every candidate is the trimmed form of one of the lines. */
  lemma {:induction false} CandidatesFromLines(raw: seq<string>)
    ensures forall n :: n in Candidates(raw) ==> exists line :: line in raw && n == TrimSpace(line)
    decreases |raw|
  {
    if raw != [] {
      CandidatesFromLines(raw[1..]);
      var n := TrimSpace(raw[0]);
      assert Candidates(raw) == (if ByteLen(n) < 3 then [] else [n]) + Candidates(raw[1..]);
      forall m | m in Candidates(raw)
        ensures exists line :: line in raw && m == TrimSpace(line)
      {
        if m in Candidates(raw[1..]) {
          var line :| line in raw[1..] && m == TrimSpace(line);
          assert line in raw;
        } else {
          assert raw[0] in raw && m == TrimSpace(raw[0]);
        }
      }
    }
  }

  lemma {:induction false} CandidatesComplete(raw: seq<string>)
    ensures forall line :: line in raw && ByteLen(TrimSpace(line)) >= 3 ==>
      TrimSpace(line) in Candidates(raw)
    decreases |raw|
  {
    if raw != [] {
      CandidatesComplete(raw[1..]);
      assert forall line :: line in raw ==> line == raw[0] || line in raw[1..];
    }
  }

  /** The kept names are the distinct candidates, first occurrences in
      input order, cut to MaximumNames: so they are distinct, at most
      MaximumNames, all candidates, and when fewer are kept every candidate
      is among them. */
  lemma KeepMeaning(raw: seq<string>)
    ensures var names := Select(raw, []);
      && names == Take(Dedup(Candidates(raw), []), MaximumNames)
      && |names| <= MaximumNames
      && Distinct(names)
      && (forall n :: n in names ==> n in Candidates(raw))
      && (|names| < MaximumNames ==> forall n :: n in Candidates(raw) ==> n in names)
  {
    SelectMeaning(raw, []);
    var all := Dedup(Candidates(raw), []);
    DedupMeaning(Candidates(raw), []);
    var names := Take(all, MaximumNames);
    forall i, j | 0 <= i < j < |names|
      ensures names[i] != names[j]
    {
      assert names[i] == all[i] && names[j] == all[j];
    }
    forall n | n in names
      ensures n in Candidates(raw)
    {
      var i :| 0 <= i < |names| && names[i] == n;
      assert all[i] == n;
    }
  }

  /** What serveData keeps from the posted text: distinct, trimmed names
      of at least three bytes and no line break, at most MaximumNames of
      them, each the trimmed form of one of the lines; when fewer are
      kept, every long enough trimmed line is among them. */
  lemma NormalizeMeaning(text: string)
    ensures |Normalize(text)| <= MaximumNames
    ensures Distinct(Normalize(text))
    ensures forall n :: n in Normalize(text) ==> ByteLen(n) >= 3 && TrimSpace(n) == n && NoBreak(n)
    ensures forall n :: n in Normalize(text) ==> exists line :: line in SplitLines(text) && n == TrimSpace(line)
    ensures |Normalize(text)| < MaximumNames ==>
      forall line :: line in SplitLines(text) && ByteLen(TrimSpace(line)) >= 3 ==>
        TrimSpace(line) in Normalize(text)
  {
    SplitLinesMeaning(text);
    LinesMeaning(SplitLines(text));
  }

  /** NormalizeMeaning over lines already split. */
  lemma LinesMeaning(raw: seq<string>)
    requires forall k :: 0 <= k < |raw| ==> NoBreak(raw[k])
    ensures var names := Select(raw, []);
      && |names| <= MaximumNames
      && Distinct(names)
      && (forall n :: n in names ==> ByteLen(n) >= 3 && TrimSpace(n) == n && NoBreak(n))
      && (forall n :: n in names ==> exists line :: line in raw && n == TrimSpace(line))
      && (|names| < MaximumNames ==>
            forall line :: line in raw && ByteLen(TrimSpace(line)) >= 3 ==> TrimSpace(line) in names)
  {
    KeepMeaning(raw);
    CandidatesWellFormed(raw);
    CandidatesFromLines(raw);
    CandidatesComplete(raw);
  }

  // ---------------------------------------------------------------------
  // The NDJSON stream

  /** The elements of the response stream. */
  datatype Element = Start(total: nat) | Record(cd: CharacterData) | Done(sent: nat, total: nat)

  /** The response writer. The client may go away after a number of
      elements, after which every write fails. */
  class Stream {
    var out: seq<Element>
    const closesAfter: Option<nat>

    /** Whether the write of the element at position `k` succeeds. */
    predicate Accepts(k: nat) {
      closesAfter.None? || k < closesAfter.value
    }

    constructor (closesAfter: Option<nat>)
      ensures out == [] && this.closesAfter == closesAfter
    {
      out := [];
      this.closesAfter := closesAfter;
    }

    /** enc.Encode followed by a flush. */
    method Write(e: Element) returns (ok: bool)
      modifies this
      ensures ok == Accepts(|old(out)|)
      ensures out == if ok then old(out) + [e] else old(out)
    {
      ok := Accepts(|out|);
      if ok {
        out := out + [e];
      }
    }
  }

  /** The records of the successful responses, in order. */
  function Delivered(results: seq<Response>): (es: seq<Element>)
    ensures |es| <= |results|
    ensures forall k :: 0 <= k < |es| ==> es[k].Record?
  {
    if results == [] then []
    else
      var last := results[|results| - 1];
      Delivered(results[..|results| - 1]) + (if last.err.None? then [Record(last.record)] else [])
  }

  function Failures(results: seq<Response>): nat {
    if results == [] then 0
    else Failures(results[..|results| - 1]) + (if results[|results| - 1].err.None? then 0 else 1)
  }

  /** Every response is either delivered or counted as failed. */
  lemma {:induction false} DeliveredCount(results: seq<Response>)
    ensures |Delivered(results)| + Failures(results) == |results|
    decreases |results|
  {
    if results != [] {
      DeliveredCount(results[..|results| - 1]);
    }
  }

  lemma {:induction false} DeliveredPrefix(results: seq<Response>, i: nat)
    requires i <= |results|
    ensures Delivered(results[..i]) <= Delivered(results)
    decreases |results| - i
  {
    if i < |results| {
      DeliveredPrefix(results, i + 1);
      assert results[..i + 1][..i] == results[..i];
    } else {
      assert results[..i] == results;
    }
  }

  /** The records delivered before a successful response are a proper
      prefix of all the records. */
  lemma DeliveredCut(results: seq<Response>, i: nat)
    requires i < |results| && results[i].err.None?
    ensures var d := Delivered(results[..i]);
      |d| < |Delivered(results)| && Delivered(results)[..|d|] == d
  {
    DeliveredPrefix(results, i + 1);
    assert results[..i + 1][..i] == results[..i];
    assert Delivered(results[..i + 1]) == Delivered(results[..i]) + [Record(results[i].record)];
  }

  /** The whole stream of a request whose client stays: the start
      marker, the delivered records, the done marker. */
  function Transcript(total: nat, results: seq<Response>): seq<Element> {
    [Start(total)] + Delivered(results) + [Done(|Delivered(results)|, total)]
  }

  /** The accounting of a complete stream: it begins with the start
      marker, ends with the done marker, and between them holds only
      records, as many as the done marker's `sent`, which is at most the
      number of responses received, errors excluded. */
  lemma TranscriptAccounting(total: nat, results: seq<Response>)
    requires |results| <= total
    ensures var t := Transcript(total, results);
      && t[0] == Start(total)
      && t[|t| - 1] == Done(|t| - 2, total)
      && (forall k :: 0 < k < |t| - 1 ==> t[k].Record?)
      && |t| - 2 + Failures(results) == |results|
      && |t| - 2 <= |results| <= total
  {
    DeliveredCount(results);
    var t := Transcript(total, results);
    forall k | 0 < k < |t| - 1
      ensures t[k].Record?
    {
      assert t[k] == Delivered(results)[k - 1];
    }
  }

  /** The result loop of serveData: errors are skipped, each successful
      record is written, and the done marker closes the stream. A failed
      write ends the request at once, with no done marker. */
  method StreamResults(s: Stream, results: seq<Response>, total: nat) returns (sent: nat, completed: bool)
    modifies s
    ensures sent <= |Delivered(results)|
    ensures sent < |Delivered(results)| ==> !s.Accepts(|old(s.out)| + sent)
    ensures sent > 0 ==> s.Accepts(|old(s.out)| + sent - 1)
    ensures completed <==> sent == |Delivered(results)| && s.Accepts(|old(s.out)| + sent)
    ensures s.out == old(s.out) + Delivered(results)[..sent] + (if completed then [Done(sent, total)] else [])
  {
    var written := WriteRecords(s, results);
    sent := written;
    if sent < |Delivered(results)| {
      return sent, false;
    }
    assert Delivered(results)[..sent] == Delivered(results);
    completed := s.Write(Done(sent, total));
  }

  /** The records of `results`, written one by one until a write fails:
      `sent` records went out, all of them unless a write was refused. */
  method WriteRecords(s: Stream, results: seq<Response>) returns (sent: nat)
    modifies s
    ensures sent <= |Delivered(results)|
    ensures sent < |Delivered(results)| ==> !s.Accepts(|old(s.out)| + sent)
    ensures sent > 0 ==> s.Accepts(|old(s.out)| + sent - 1)
    ensures s.out == old(s.out) + Delivered(results)[..sent]
  {
    sent := 0;
    var i := 0;
    while i < |results|
      invariant 0 <= i <= |results|
      invariant sent == |Delivered(results[..i])|
      invariant s.out == old(s.out) + Delivered(results[..i])
      invariant sent > 0 ==> s.Accepts(|old(s.out)| + sent - 1)
    {
      ghost var d := Delivered(results[..i]);
      DeliveredSnoc(results, i);
      if results[i].err.None? {
        var ok := s.Write(Record(results[i].record));
        if !ok {
          DeliveredCut(results, i);
          assert s.out == old(s.out) + Delivered(results)[..sent];
          return sent;
        }
        assert s.out == old(s.out) + (d + [Record(results[i].record)]);
        sent := sent + 1;
      }
      i := i + 1;
    }
    assert results[..i] == results;
    assert Delivered(results)[..sent] == Delivered(results);
  }

  lemma DeliveredSnoc(results: seq<Response>, i: nat)
    requires i < |results|
    ensures Delivered(results[..i + 1])
      == Delivered(results[..i]) + (if results[i].err.None? then [Record(results[i].record)] else [])
  {
    assert results[..i + 1][..i] == results[..i];
  }

  /** How a request ends. */
  datatype Outcome = Unsupported | Aborted | Completed(sent: nat)

  /** Preloads the ids, a failure being only logged, then looks every
      name up in order (the worker pool flattened): one response per
      name. */
  method FetchAll(c: Caches, env: Env, names: seq<string>) returns (responses: seq<Response>)
    modifies c
    ensures |responses| == |names|
  {
    var _, _ := Character.LoadCharacterIds(c, env, names);
    responses := [];
    var i := 0;
    while i < |names|
      invariant 0 <= i <= |names| && |responses| == i
    {
      var r, resolved, stages, plan, rs := Character.FetchCharacterData(c, env, names[i]);
      responses := responses + [r];
      i := i + 1;
    }
  }

  /** serveData: normalise the names, announce the total, preload the ids
      (a failure is only logged), look the names up and stream the
      results. */
  method ServeData(c: Caches, env: Env, text: string, s: Stream, flushable: bool)
    returns (outcome: Outcome, names: seq<string>, responses: seq<Response>)
    modifies c, s
    ensures names == Normalize(text)
    ensures Served(old(s.out), s.out, flushable, outcome, names, responses)
  {
    names := NormalizeNames(text);
    outcome, responses := Respond(c, env, names, s, flushable);
  }

  /** What serving the names leaves on the stream: nothing without
      streaming support; otherwise a prefix of the transcript, the whole
      of it exactly when the request completes. */
  ghost predicate Served(before: seq<Element>, after: seq<Element>, flushable: bool,
                         outcome: Outcome, names: seq<string>, responses: seq<Response>) {
    && (!flushable ==> outcome == Unsupported && after == before)
    && (flushable ==>
         && outcome != Unsupported
         && before <= after
         && after[|before|..] <= Transcript(|names|, responses)
         && (outcome.Completed? <==> after[|before|..] == Transcript(|names|, responses)))
    && (outcome.Completed? ==> |responses| == |names| && outcome.sent == |Delivered(responses)|)
  }

  /** serveData once the names are known. */
  method Respond(c: Caches, env: Env, names: seq<string>, s: Stream, flushable: bool)
    returns (outcome: Outcome, responses: seq<Response>)
    modifies c, s
    ensures Served(old(s.out), s.out, flushable, outcome, names, responses)
  {
    responses := [];
    if !flushable {
      return Unsupported, responses;
    }
    var ok := s.Write(Start(|names|));
    if !ok {
      assert s.out[|old(s.out)|..] == [];
      return Aborted, responses;
    }
    responses := FetchAll(c, env, names);
    ghost var before := s.out;
    var sent, completed := StreamResults(s, responses, |names|);
    StreamIsServed(old(s.out), before, s.out, |names|, responses, sent, completed);
    if completed {
      outcome := Completed(sent);
    } else {
      outcome := Aborted;
    }
  }

  /** The stream of a request that got past the start marker: a prefix of
      the transcript, the whole of it exactly when the done marker went
      out. */
  lemma StreamIsServed(start: seq<Element>, before: seq<Element>, after: seq<Element>, total: nat,
                       results: seq<Response>, sent: nat, completed: bool)
    requires before == start + [Start(total)]
    requires sent <= |Delivered(results)|
    requires completed ==> sent == |Delivered(results)|
    requires after == before + Delivered(results)[..sent] + (if completed then [Done(sent, total)] else [])
    ensures start <= after
    ensures after[|start|..] <= Transcript(total, results)
    ensures completed <==> after[|start|..] == Transcript(total, results)
  {
    var w := after[|start|..];
    assert w == [Start(total)] + Delivered(results)[..sent] + (if completed then [Done(sent, total)] else []);
    WrittenIsPrefix(total, results, sent);
    if completed {
      assert Delivered(results)[..sent] == Delivered(results);
    }
  }

  /** A stream cut before its done marker is a proper prefix of the
      transcript. */
  lemma WrittenIsPrefix(total: nat, results: seq<Response>, sent: nat)
    requires sent <= |Delivered(results)|
    ensures [Start(total)] + Delivered(results)[..sent] <= Transcript(total, results)
    ensures |[Start(total)] + Delivered(results)[..sent]| < |Transcript(total, results)|
  {
  }

  /** A stream that is a proper prefix of the transcript holds no done
      marker: the client that went away never sees the counts. */
  lemma CutStreamHasNoDone(total: nat, results: seq<Response>, written: seq<Element>)
    requires |results| <= total
    requires written <= Transcript(total, results) && written != Transcript(total, results)
    ensures forall k :: 0 <= k < |written| ==> !written[k].Done?
  {
    TranscriptAccounting(total, results);
  }
}
