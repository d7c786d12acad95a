/** kill_analyzer.go: the killmail cache with its in-flight map, the
    last-kill tag, the counting over a character's recent kills and the
    count of the last week's kills. The goroutines of fetchKillHistory add
    their counts under a mutex, so the model folds over the references in
    list order. */
module KillAnalyzer {
  import opened Results
  import opened Upstream
  import opened Store
  import opened Profile
  import Decimal
  import Utils
  import Duration

  /** The hull types counted as exploration ships. */
  const ExplorerShips: set<int> :=
    {29248, 11188, 11192, 605, 11172, 607, 11182, 586, 33468, 33470}

  /** The cache key of a killmail: "<id>:<hash>". */
  function KillmailKey(id: int, hash: string): string {
    Decimal.IntToString(id) + ":" + hash
  }

  /** Printed integers contain no ':'. */
  lemma NoColon(i: int)
    ensures ':' !in Decimal.IntToString(i)
  {
  }

  /** Different kills never share a cache entry. */
  lemma KillmailKeyInjective(id1: int, hash1: string, id2: int, hash2: string)
    requires KillmailKey(id1, hash1) == KillmailKey(id2, hash2)
    ensures id1 == id2 && hash1 == hash2
  {
    var a, b := Decimal.IntToString(id1), Decimal.IntToString(id2);
    var k := KillmailKey(id1, hash1);
    NoColon(id1);
    NoColon(id2);
    assert k == a + (":" + hash1) && k == b + (":" + hash2);
    assert k[..|a|] == a && k[..|b|] == b;
    Duration.BeforeFirstAt(k, ':', |a|);
    Duration.BeforeFirstAt(k, ':', |b|);
    Decimal.IntToStringInjective(id1, id2);
    assert hash1 == k[|a| + 1..];
  }

  /** The record ccpGetKillMail hands back, given the caches it starts from
      and the number of upstream requests made before it: the cached one,
      the one a fetch in flight publishes, or what its own fetch decodes
      (the zero record when the fetch fails). */
  function KillMailOutcome(killmails: map<string, Entry<KillMail>>, inflight: map<string, KillMail>,
                           n: nat, env: Env, id: int, hash: string): KillMail
  {
    var key := KillmailKey(id, hash);
    if key in killmails then killmails[key].value
    else if key in inflight then inflight[key]
    else
      var res := env.net(n, Killmail(id, hash));
      if res.Ok? then env.codec.killMail(res.value) else ZeroKillMail()
  }

  /** The killmail cache after ccpGetKillMail: a record fetched by its
      own successful request is added. */
  function KillmailsAfter(killmails: map<string, Entry<KillMail>>, inflight: map<string, KillMail>,
                          n: nat, env: Env, id: int, hash: string): map<string, Entry<KillMail>>
  {
    var key := KillmailKey(id, hash);
    if key in killmails || key in inflight || env.net(n, Killmail(id, hash)).Err? then killmails
    else killmails[key := Entry(KillMailOutcome(killmails, inflight, n, env, id, hash), true)]
  }

  /** The number of upstream requests after ccpGetKillMail: one more
      unless the cache or a fetch in flight served it. */
  function CallsAfterMail(killmails: map<string, Entry<KillMail>>, inflight: map<string, KillMail>,
                          n: nat, id: int, hash: string): (k: nat)
    ensures k == n || k == n + 1
  {
    var key := KillmailKey(id, hash);
    if key in killmails || key in inflight then n else n + 1
  }

  /** What a run of ccpGetKillMail calls leaves: the records in order,
      the killmail cache and the number of upstream requests made. */
  datatype MailFold = MailFold(mails: seq<KillMail>, killmails: map<string, Entry<KillMail>>, calls: nat)

  /** ccpGetKillMail called on `refs` in order, starting from the
      killmail cache `killmails` after `n` requests; each call sees the
      cache and the request count the previous ones left. */
  ghost function MailsOf(killmails: map<string, Entry<KillMail>>, inflight: map<string, KillMail>,
                         n: nat, env: Env, refs: seq<KillRef>): (f: MailFold)
    ensures |f.mails| == |refs|
    decreases |refs|
  {
    if refs == [] then MailFold([], killmails, n)
    else
      var f := MailsOf(killmails, inflight, n, env, refs[..|refs| - 1]);
      var r := refs[|refs| - 1];
      MailFold(f.mails + [KillMailOutcome(f.killmails, inflight, f.calls, env, r.id, r.hash)],
               KillmailsAfter(f.killmails, inflight, f.calls, env, r.id, r.hash),
               CallsAfterMail(f.killmails, inflight, f.calls, r.id, r.hash))
  }

  /** ccpGetKillMail. A cache hit makes no request; a caller that finds a
      fetch in flight gets what that fetch publishes; otherwise the caller
      leads: it registers the key, fetches, publishes, removes the key and
      caches the record when the request succeeded. A body that does not
      decode still counts as success: its partial record is cached. */
  method GetKillMail(c: Caches, env: Env, id: int, hash: string) returns (km: KillMail)
    modifies c
    ensures km == KillMailOutcome(old(c.killmails), old(c.inflight), |old(c.calls)|, env, id, hash)
    ensures var key := KillmailKey(id, hash);
      if key in old(c.killmails) || key in old(c.inflight) then
        c.calls == old(c.calls) && c.killmails == old(c.killmails)
      else
        var res := env.net(|old(c.calls)|, Killmail(id, hash));
        && c.calls == old(c.calls) + [Killmail(id, hash)]
        && c.killmails == (if res.Ok? then old(c.killmails)[key := Entry(km, true)] else old(c.killmails))
    ensures c.killmails == KillmailsAfter(old(c.killmails), old(c.inflight), |old(c.calls)|, env, id, hash)
    ensures |c.calls| == CallsAfterMail(old(c.killmails), old(c.inflight), |old(c.calls)|, id, hash)
    ensures c.inflight == old(c.inflight)
    ensures c.ccp == old(c.ccp) && c.zkill == old(c.zkill)
  {
    var key := KillmailKey(id, hash);
    if key in c.killmails {
      return c.killmails[key].value;
    }
    if key in c.inflight {
      return c.inflight[key];
    }
    c.inflight := c.inflight[key := ZeroKillMail()];
    km := ZeroKillMail();
    var res := c.Fetch(env.net, Killmail(id, hash));
    if res.Ok? {
      km := env.codec.killMail(res.value);
    }
    c.inflight := c.inflight[key := km];
    c.inflight := c.inflight - {key};
    if res.Ok? {
      c.killmails := c.killmails[key := Entry(km, true)];
    }
  }

  /** Two lookups of the same kill: the second is served by the cache when
      the first one's request succeeded, and makes no request. */
  method GetKillMailTwice(c: Caches, env: Env, id: int, hash: string) returns (first: KillMail, second: KillMail)
    modifies c
    requires KillmailKey(id, hash) !in c.killmails && KillmailKey(id, hash) !in c.inflight
    requires env.net(|c.calls|, Killmail(id, hash)).Ok?
    ensures first == second
    ensures c.calls == old(c.calls) + [Killmail(id, hash)]
  {
    first := GetKillMail(c, env, id, hash);
    second := GetKillMail(c, env, id, hash);
  }

  /** A failed request leaves nothing behind: no cache entry, no entry in
      flight, and the zero record for the caller. */
  method GetKillMailFailure(c: Caches, env: Env, id: int, hash: string) returns (km: KillMail)
    modifies c
    requires KillmailKey(id, hash) !in c.killmails && KillmailKey(id, hash) !in c.inflight
    requires env.net(|c.calls|, Killmail(id, hash)).Err?
    ensures km == ZeroKillMail()
    ensures KillmailKey(id, hash) !in c.killmails && KillmailKey(id, hash) !in c.inflight
  {
    km := GetKillMail(c, env, id, hash);
  }

  /** What the character's last kill was for it: its own loss (checked
      first), a structure (victim id 0), or a kill. */
  function Label(id: int, victim: int): (r: string)
    ensures r == "loss" <==> victim == id
    ensures r == "struct" <==> victim != id && victim == 0
    ensures r == "kill" <==> victim != id && victim != 0
  {
    if victim == id then "loss" else if victim == 0 then "struct" else "kill"
  }

  /** The LastKill text: the kill's date, then its tag in parentheses. */
  function LastKillText(id: int, km: KillMail): string {
    Utils.GetDate(km.time) + " (" + Label(id, km.victim.characterId) + ")"
  }

  /** The text names the date and the tag separately: the date is
      everything before the first 'T' of the time stamp, and the tag is
      what sits in the closing parentheses. */
  lemma LastKillTextReads(id: int, km: KillMail)
    ensures var t := LastKillText(id, km);
      var date := Utils.GetDate(km.time);
      var tag := Label(id, km.victim.characterId);
      && t[..|date|] == date && 'T' !in date
      && t[|date|..] == " (" + tag + ")"
      && (t[|t| - 6..] == "(loss)" <==> km.victim.characterId == id)
  {
    var t := LastKillText(id, km);
    var date := Utils.GetDate(km.time);
    var tag := Label(id, km.victim.characterId);
    assert t == date + (" (" + tag + ")");
    if km.victim.characterId != id {
      assert t[|t| - 2] == tag[|tag| - 1];
    }
  }

  /** fetchLastKillActivity. */
  method FetchLastKillActivity(c: Caches, env: Env, id: int) returns (r: Response)
    modifies c
    ensures Within(r.record, LastKillActivityFetch)
    ensures old(c.calls) + [CharacterActivity(id)] <= c.calls
    ensures var res := env.net(|old(c.calls)|, CharacterActivity(id));
      if res.Err? then r == Response(Empty(), Some(res.error))
      else match env.codec.refs(res.value)
        case None => r == Response(Empty(), Some(Decode))
        case Some(refs) =>
          if refs == [] then r == Response(Empty(), Some(NoKills(id)))
          else
            var km := KillMailOutcome(old(c.killmails), old(c.inflight), |old(c.calls)| + 1, env, refs[0].id, refs[0].hash);
            r == Response(Empty().(lastKill := LastKillText(id, km)), None)
    ensures var res := env.net(|old(c.calls)|, CharacterActivity(id));
      if res.Err? || env.codec.refs(res.value).None? || env.codec.refs(res.value) == Some([]) then
        c.calls == old(c.calls) + [CharacterActivity(id)] && c.killmails == old(c.killmails)
      else
        var ref := env.codec.refs(res.value).value[0];
        && c.killmails == KillmailsAfter(old(c.killmails), old(c.inflight), |old(c.calls)| + 1, env, ref.id, ref.hash)
        && |c.calls| == CallsAfterMail(old(c.killmails), old(c.inflight), |old(c.calls)| + 1, ref.id, ref.hash)
    ensures c.inflight == old(c.inflight)
    ensures c.ccp == old(c.ccp) && c.zkill == old(c.zkill)
  {
    var res := c.Fetch(env.net, CharacterActivity(id));
    var before := c.calls;
    if res.Err? {
      return Response(Empty(), Some(res.error));
    }
    var refs := env.codec.refs(res.value);
    if refs.None? {
      return Response(Empty(), Some(Decode));
    }
    if refs.value == [] {
      return Response(Empty(), Some(NoKills(id)));
    }
    r := LastKillOf(c, env, id, refs.value[0]);
    assert before <= c.calls;
  }

  /** fetchLastKillActivity once the most recent reference is known: its
      killmail, labelled. */
  method LastKillOf(c: Caches, env: Env, id: int, ref: KillRef) returns (r: Response)
    modifies c
    ensures Within(r.record, LastKillActivityFetch)
    ensures var km := KillMailOutcome(old(c.killmails), old(c.inflight), |old(c.calls)|, env, ref.id, ref.hash);
      r == Response(Empty().(lastKill := LastKillText(id, km)), None)
    ensures c.killmails == KillmailsAfter(old(c.killmails), old(c.inflight), |old(c.calls)|, env, ref.id, ref.hash)
    ensures |c.calls| == CallsAfterMail(old(c.killmails), old(c.inflight), |old(c.calls)|, ref.id, ref.hash)
    ensures old(c.calls) <= c.calls
    ensures c.inflight == old(c.inflight)
    ensures c.ccp == old(c.ccp) && c.zkill == old(c.zkill)
  {
    var km := GetKillMail(c, env, ref.id, ref.hash);
    r := Response(Empty().(lastKill := LastKillText(id, km)), None);
  }

  /** The ship types the character `id` flew among `attackers`, in order. */
  function Own(id: int, attackers: seq<CharInfo>): (ships: seq<int>)
    ensures |ships| <= |attackers|
  {
    if attackers == [] then []
    else
      var a := attackers[|attackers| - 1];
      Own(id, attackers[..|attackers| - 1]) + (if a.characterId == id then [a.shipTypeId] else [])
  }

  /** The exploration kills in one killmail: every attacker entry of the
      character counts when the victim flew an exploration ship. */
  function ExplorerIn(id: int, km: KillMail): nat {
    if km.victim.shipTypeId in ExplorerShips then |Own(id, km.attackers)| else 0
  }

  /** The character's attacker entries' ship types across killmails. */
  function Flown(id: int, mails: seq<KillMail>): seq<int> {
    if mails == [] then [] else Flown(id, mails[..|mails| - 1]) + Own(id, mails[|mails| - 1].attackers)
  }

  /** RecentExplorerTotal, as a specification. */
  function ExplorerTotal(id: int, mails: seq<KillMail>): nat {
    if mails == [] then 0 else ExplorerTotal(id, mails[..|mails| - 1]) + ExplorerIn(id, mails[|mails| - 1])
  }

  /** Exploration kills are a subset of the character's attacker entries. */
  lemma {:induction false} ExplorerWithinFlown(id: int, mails: seq<KillMail>)
    ensures ExplorerTotal(id, mails) <= |Flown(id, mails)|
    decreases |mails|
  {
    if mails != [] {
      ExplorerWithinFlown(id, mails[..|mails| - 1]);
    }
  }

  /** Killmails of other characters' fights add nothing. */
  lemma {:induction false} OwnOfStrangers(id: int, attackers: seq<CharInfo>)
    requires forall i :: 0 <= i < |attackers| ==> attackers[i].characterId != id
    ensures Own(id, attackers) == []
    decreases |attackers|
  {
    if attackers != [] {
      OwnOfStrangers(id, attackers[..|attackers| - 1]);
    }
  }

  /** The count of every element of `ms`, the way shipFreq holds it: a
      key exactly for each element, mapped to its multiplicity. */
  ghost function Freq(ms: multiset<int>): map<int, int> {
    map s | s in ms :: ms[s]
  }

  lemma FreqMeaning(ms: multiset<int>)
    ensures forall s :: s in Freq(ms) <==> ms[s] > 0
    ensures forall s :: s in Freq(ms) ==> Freq(ms)[s] == ms[s]
  {
  }

  /** `shipFreq[s]++`. */
  function Bump(freq: map<int, int>, s: int): map<int, int> {
    freq[s := (if s in freq then freq[s] else 0) + 1]
  }

  /** `freq` after `shipFreq[s]++` for each `s` of `ships`, in order. */
  function Tallied(freq: map<int, int>, ships: seq<int>): map<int, int> {
    if ships == [] then freq else Bump(Tallied(freq, ships[..|ships| - 1]), ships[|ships| - 1])
  }

  /** Counting one more ship counts one more element. */
  lemma FreqAdd(ms: multiset<int>, s: int)
    ensures Bump(Freq(ms), s) == Freq(ms + multiset{s})
  {
    var l, r := Bump(Freq(ms), s), Freq(ms + multiset{s});
    assert forall t :: t in l <==> t in r;
    assert forall t :: t in l ==> l[t] == r[t];
  }

  /** Counting the ships one by one from an empty map gives the count of
      every ship type: the map holds exactly the types flown, each with
      its number of occurrences. */
  lemma {:induction false} TalliedCounts(ships: seq<int>)
    ensures Tallied(map[], ships) == Freq(multiset(ships))
    decreases |ships|
  {
    if ships == [] {
      assert Freq(multiset{}) == map[];
    } else {
      var init, s := ships[..|ships| - 1], ships[|ships| - 1];
      TalliedCounts(init);
      FreqAdd(multiset(init), s);
      assert ships == init + [s];
      assert multiset(ships) == multiset(init) + multiset{s};
    }
  }

  /** Counting two runs of ships is counting the first, then the second. */
  lemma {:induction false} TalliedAppend(freq: map<int, int>, xs: seq<int>, ys: seq<int>)
    ensures Tallied(freq, xs + ys) == Tallied(Tallied(freq, xs), ys)
    decreases |ys|
  {
    if ys == [] {
      assert xs + ys == xs;
    } else {
      var init := ys[..|ys| - 1];
      TalliedAppend(freq, xs, init);
      assert (xs + ys)[..|xs + ys| - 1] == xs + init;
    }
  }

  /** The pick of the favourite ship: a type with the largest count, and
      (0, 0) when no type was counted. Go ranges over the map in an
      unspecified order, so which of several tied types wins is left open. */
  method FavoriteShip(freq: map<int, int>) returns (bestId: int, bestCnt: int)
    ensures forall s :: s in freq ==> freq[s] <= bestCnt
    ensures bestCnt >= 0
    ensures (bestId == 0 && bestCnt == 0) || (bestId in freq && freq[bestId] == bestCnt && bestCnt > 0)
  {
    bestId, bestCnt := 0, 0;
    var rest := freq.Keys;
    while rest != {}
      invariant rest <= freq.Keys
      invariant forall s :: s in freq && s !in rest ==> freq[s] <= bestCnt
      invariant bestCnt >= 0
      invariant (bestId == 0 && bestCnt == 0) || (bestId in freq && freq[bestId] == bestCnt && bestCnt > 0)
      decreases rest
    {
      HasElement(rest);
      var s: int :| s in rest;
      if freq[s] > bestCnt {
        bestCnt := freq[s];
        bestId := s;
      }
      rest := rest - {s};
    }
  }

  lemma HasElement(r: set<int>)
    requires r != {}
    ensures exists s :: s in r
  {
    if forall s :: s !in r {
      assert false;
    }
  }

  /** The counting of one killmail: the character's attacker entries add
      to the exploration total when the victim flew an exploration ship,
      and each adds one to the count of the ship type it flew. */
  method AddKill(id: int, km: KillMail, explorerTotal: int, shipFreq: map<int, int>)
    returns (explorerTotal': int, shipFreq': map<int, int>)
    ensures explorerTotal' == explorerTotal + ExplorerIn(id, km)
    ensures shipFreq' == Tallied(shipFreq, Own(id, km.attackers))
  {
    var explorer := km.victim.shipTypeId in ExplorerShips;
    explorerTotal', shipFreq' := CountAttackers(id, km.attackers, explorer, explorerTotal, shipFreq);
  }

  /** The loop over the attackers of one killmail, `explorer` telling
      whether the victim flew an exploration ship. */
  method CountAttackers(id: int, attackers: seq<CharInfo>, explorer: bool, explorerTotal: int,
                        shipFreq: map<int, int>)
    returns (explorerTotal': int, shipFreq': map<int, int>)
    ensures explorerTotal' == explorerTotal + (if explorer then |Own(id, attackers)| else 0)
    ensures shipFreq' == Tallied(shipFreq, Own(id, attackers))
  {
    explorerTotal', shipFreq' := explorerTotal, shipFreq;
    var j := 0;
    assert attackers[..j] == [];
    while j < |attackers|
      invariant 0 <= j <= |attackers|
      invariant explorerTotal' == explorerTotal + (if explorer then |Own(id, attackers[..j])| else 0)
      invariant shipFreq' == Tallied(shipFreq, Own(id, attackers[..j]))
    {
      var a := attackers[j];
      AttackerStep(id, attackers, j, shipFreq);
      if a.characterId == id {
        if explorer {
          explorerTotal' := explorerTotal' + 1;
        }
        shipFreq' := Bump(shipFreq', a.shipTypeId);
      }
      j := j + 1;
    }
    assert attackers[..j] == attackers;
  }

  /** One attacker entry more: the character's own entry adds its ship to
      the tally, anyone else's changes nothing. */
  lemma AttackerStep(id: int, attackers: seq<CharInfo>, j: nat, freq: map<int, int>)
    requires j < |attackers|
    ensures var a, own := attackers[j], Own(id, attackers[..j]);
      if a.characterId == id then
        && |Own(id, attackers[..j + 1])| == |own| + 1
        && Tallied(freq, Own(id, attackers[..j + 1])) == Bump(Tallied(freq, own), a.shipTypeId)
      else Own(id, attackers[..j + 1]) == own
  {
    OwnStep(id, attackers, j);
    if attackers[j].characterId == id {
      TalliedSnoc(freq, Own(id, attackers[..j]), attackers[j].shipTypeId);
    }
  }

  /** Tallying one more ship bumps its count. */
  lemma TalliedSnoc(freq: map<int, int>, ships: seq<int>, s: int)
    ensures Tallied(freq, ships + [s]) == Bump(Tallied(freq, ships), s)
  {
    assert (ships + [s])[..|ships|] == ships;
  }

  lemma OwnStep(id: int, attackers: seq<CharInfo>, j: nat)
    requires j < |attackers|
    ensures Own(id, attackers[..j + 1]) ==
            Own(id, attackers[..j]) + (if attackers[j].characterId == id then [attackers[j].shipTypeId] else [])
  {
    assert attackers[..j + 1][..j] == attackers[..j];
  }

  /** The counting part of fetchKillHistory over killmails already fetched,
      one per reference, in list order. */
  method Tally(id: int, mails: seq<KillMail>) returns (explorerTotal: int, shipFreq: map<int, int>)
    ensures explorerTotal == ExplorerTotal(id, mails)
    ensures shipFreq == Freq(multiset(Flown(id, mails)))
  {
    explorerTotal := 0;
    shipFreq := map[];
    var i := 0;
    while i < |mails|
      invariant 0 <= i <= |mails|
      invariant explorerTotal == ExplorerTotal(id, mails[..i])
      invariant shipFreq == Tallied(map[], Flown(id, mails[..i]))
    {
      TallyStep(id, mails, i);
      TalliedAppend(map[], Flown(id, mails[..i]), Own(id, mails[i].attackers));
      explorerTotal, shipFreq := AddKill(id, mails[i], explorerTotal, shipFreq);
      i := i + 1;
    }
    assert mails[..i] == mails;
    TalliedCounts(Flown(id, mails));
  }

  lemma TallyStep(id: int, mails: seq<KillMail>, i: nat)
    requires i < |mails|
    ensures Flown(id, mails[..i + 1]) == Flown(id, mails[..i]) + Own(id, mails[i].attackers)
    ensures ExplorerTotal(id, mails[..i + 1]) == ExplorerTotal(id, mails[..i]) + ExplorerIn(id, mails[i])
  {
    assert mails[..i + 1][..i] == mails[..i];
  }

  /** The record fetchKillHistory builds from `n` references and the
      killmails fetched for them (one per reference, in list order): the
      number of references, the exploration total, the date of the
      killmail of the LAST reference, and a most flown ship with its count
      when the favourite ship is computed at all, (0, 0) otherwise or when
      the character flew nothing. */
  ghost predicate HistoryOf(cd: CharacterData, id: int, n: nat, mails: seq<KillMail>, favorite: bool) {
    var ms := multiset(Flown(id, mails));
    && |mails| == n > 0
    && cd == Empty().(recentKillTotal := n, recentExplorerTotal := ExplorerTotal(id, mails),
                      lastKillTime := Utils.GetDate(mails[n - 1].time),
                      favoriteShipId := cd.favoriteShipId, favoriteShipCount := cd.favoriteShipCount)
    && (favorite ==> forall s :: cd.favoriteShipCount >= ms[s])
    && (if favorite && |ms| > 0 then ms[cd.favoriteShipId] == cd.favoriteShipCount > 0
        else cd.favoriteShipId == 0 && cd.favoriteShipCount == 0)
  }

  /** The summary after the fetch loop of fetchKillHistory. */
  method Summarize(id: int, mails: seq<KillMail>, lastKillTime: string, favorite: bool) returns (cd: CharacterData)
    requires |mails| > 0 && lastKillTime == Utils.GetDate(mails[|mails| - 1].time)
    ensures HistoryOf(cd, id, |mails|, mails, favorite)
    ensures Within(cd, KillHistoryFetch)
  {
    var explorerTotal, shipFreq := Tally(id, mails);
    var bestId, bestCnt := 0, 0;
    if favorite {
      bestId, bestCnt := FavoriteShip(shipFreq);
      FavoriteIsMax(shipFreq, multiset(Flown(id, mails)), bestId, bestCnt);
    }
    cd := Empty().(recentKillTotal := |mails|, recentExplorerTotal := explorerTotal,
                   lastKillTime := lastKillTime, favoriteShipId := bestId,
                   favoriteShipCount := bestCnt);
  }

  /** fetchKillHistory. The number of references is reported whatever the
      fetches of their killmails return; `mails` are those killmails. */
  method FetchKillHistory(c: Caches, env: Env, id: int) returns (r: Response, ghost mails: seq<KillMail>)
    modifies c
    ensures Within(r.record, KillHistoryFetch)
    ensures old(c.calls) + [CharacterKills(id)] <= c.calls
    ensures var res := env.net(|old(c.calls)|, CharacterKills(id));
      if res.Err? then r == Response(Empty(), Some(res.error))
      else match env.codec.refs(res.value)
        case None => r == Response(Empty(), Some(Decode))
        case Some(refs) =>
          if refs == [] then r == Response(Empty(), Some(NoKills(id)))
          else
            && r.err.None? && HistoryOf(r.record, id, |refs|, mails, env.computeFavoriteShip)
            && mails == MailsOf(old(c.killmails), old(c.inflight), |old(c.calls)| + 1, env, refs).mails
    ensures var res := env.net(|old(c.calls)|, CharacterKills(id));
      if res.Err? || env.codec.refs(res.value).None? || env.codec.refs(res.value) == Some([]) then
        c.calls == old(c.calls) + [CharacterKills(id)] && c.killmails == old(c.killmails)
      else
        var f := MailsOf(old(c.killmails), old(c.inflight), |old(c.calls)| + 1, env, env.codec.refs(res.value).value);
        c.killmails == f.killmails && |c.calls| == f.calls
    ensures c.inflight == old(c.inflight)
    ensures c.ccp == old(c.ccp) && c.zkill == old(c.zkill)
  {
    mails := [];
    var res := c.Fetch(env.net, CharacterKills(id));
    if res.Err? {
      return Response(Empty(), Some(res.error)), mails;
    }
    var decoded := env.codec.refs(res.value);
    if decoded.None? {
      return Response(Empty(), Some(Decode)), mails;
    }
    var refs := decoded.value;
    if refs == [] {
      return Response(Empty(), Some(NoKills(id))), mails;
    }
    ghost var before := c.calls;
    r, mails := HistoryOfRefs(c, env, id, refs);
    assert before <= c.calls;
  }

  /** fetchKillHistory once the references are known: every killmail is
      fetched, then summarised. */
  method HistoryOfRefs(c: Caches, env: Env, id: int, refs: seq<KillRef>) returns (r: Response, ghost mails: seq<KillMail>)
    modifies c
    requires refs != []
    ensures Within(r.record, KillHistoryFetch)
    ensures r.err.None? && HistoryOf(r.record, id, |refs|, mails, env.computeFavoriteShip)
    ensures mails == MailsOf(old(c.killmails), old(c.inflight), |old(c.calls)|, env, refs).mails
    ensures var f := MailsOf(old(c.killmails), old(c.inflight), |old(c.calls)|, env, refs);
      c.killmails == f.killmails && |c.calls| == f.calls
    ensures old(c.calls) <= c.calls
    ensures c.inflight == old(c.inflight)
    ensures c.ccp == old(c.ccp) && c.zkill == old(c.zkill)
  {
    var fetched, lastKillTime := FetchMails(c, env, refs);
    mails := fetched;
    var cd := Summarize(id, fetched, lastKillTime, env.computeFavoriteShip);
    r := Response(cd, None);
  }

  /** One turn of fetchKillHistory's loop: the killmail of `refs[i]`,
      which extends the fold over the references before it. */
  method NextMail(c: Caches, env: Env, refs: seq<KillRef>, i: nat,
                  ghost killmails: map<string, Entry<KillMail>>, ghost n: nat, ghost fetched: seq<KillMail>)
    returns (km: KillMail)
    modifies c
    requires i < |refs|
    requires MailsOf(killmails, c.inflight, n, env, refs[..i]) == MailFold(fetched, c.killmails, |c.calls|)
    ensures MailsOf(killmails, c.inflight, n, env, refs[..i + 1]) == MailFold(fetched + [km], c.killmails, |c.calls|)
    ensures old(c.calls) <= c.calls
    ensures c.ccp == old(c.ccp) && c.zkill == old(c.zkill) && c.inflight == old(c.inflight)
  {
    assert refs[..i + 1][..i] == refs[..i];
    km := GetKillMail(c, env, refs[i].id, refs[i].hash);
  }

  /** The loop of fetchKillHistory: the killmail of every reference, in
      order, and the day of the last one. */
  method FetchMails(c: Caches, env: Env, refs: seq<KillRef>) returns (fetched: seq<KillMail>, lastKillTime: string)
    modifies c
    requires refs != []
    ensures fetched == MailsOf(old(c.killmails), old(c.inflight), |old(c.calls)|, env, refs).mails
    ensures lastKillTime == Utils.GetDate(fetched[|refs| - 1].time)
    ensures var f := MailsOf(old(c.killmails), old(c.inflight), |old(c.calls)|, env, refs);
      c.killmails == f.killmails && |c.calls| == f.calls
    ensures old(c.calls) <= c.calls
    ensures c.inflight == old(c.inflight)
    ensures c.ccp == old(c.ccp) && c.zkill == old(c.zkill)
  {
    lastKillTime, fetched := "", [];
    var i := 0;
    while i < |refs|
      invariant 0 <= i <= |refs| && |fetched| == i
      invariant i == |refs| ==> lastKillTime == Utils.GetDate(fetched[i - 1].time)
      invariant old(c.calls) <= c.calls
      invariant c.ccp == old(c.ccp) && c.zkill == old(c.zkill) && c.inflight == old(c.inflight)
      invariant MailsOf(old(c.killmails), old(c.inflight), |old(c.calls)|, env, refs[..i])
        == MailFold(fetched, c.killmails, |c.calls|)
    {
      var km := NextMail(c, env, refs, i, old(c.killmails), |old(c.calls)|, fetched);
      if i == |refs| - 1 {
        lastKillTime := Utils.GetDate(km.time);
      }
      fetched := fetched + [km];
      i := i + 1;
    }
    assert refs[..i] == refs;
  }

  /** The favourite pick over counts of `ms` is a most frequent element of
      `ms`, and (0, 0) only when `ms` is empty. */
  lemma FavoriteIsMax(freq: map<int, int>, ms: multiset<int>, bestId: int, bestCnt: int)
    requires freq == Freq(ms)
    requires forall s :: s in freq ==> freq[s] <= bestCnt
    requires bestCnt >= 0
    requires (bestId == 0 && bestCnt == 0) || (bestId in freq && freq[bestId] == bestCnt && bestCnt > 0)
    ensures forall s :: bestCnt >= ms[s]
    ensures if |ms| > 0 then ms[bestId] == bestCnt > 0 else bestId == 0 && bestCnt == 0
  {
    FreqMeaning(ms);
    forall s
      ensures bestCnt >= ms[s]
    {
      if s in freq {
        assert freq[s] == ms[s];
      } else {
        assert ms[s] == 0;
      }
    }
    if |ms| > 0 {
      var s :| s in ms;
      assert s in freq;
    }
  }

  /** fetchRecentKillHistory: the number of kills of the last week, as
      counted by the streaming decoder (or its whole-array fallback). */
  method FetchRecentKillHistory(c: Caches, env: Env, id: int) returns (r: Response)
    modifies c
    ensures Within(r.record, RecentKillHistoryFetch)
    ensures c.calls == old(c.calls) + [RecentKills(id, Utils.SecondsInWeek)]
    ensures var res := env.net(|old(c.calls)|, RecentKills(id, Utils.SecondsInWeek));
      if res.Err? then r == Response(Empty(), Some(res.error))
      else match env.codec.weekCount(res.value)
        case None => r == Response(Empty(), Some(Decode))
        case Some(n) => r == Response(Empty().(killsLastWeek := n), None)
    ensures c.ccp == old(c.ccp) && c.zkill == old(c.zkill) && c.killmails == old(c.killmails)
    ensures c.inflight == old(c.inflight)
  {
    var res := c.Fetch(env.net, RecentKills(id, Utils.SecondsInWeek));
    if res.Err? {
      return Response(Empty(), Some(res.error));
    }
    var n := env.codec.weekCount(res.value);
    if n.None? {
      return Response(Empty(), Some(Decode));
    }
    r := Response(Empty().(killsLastWeek := n.value), None);
  }
}
