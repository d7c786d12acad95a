/** character/character.go: the older, sequential assembly of a
    character's record. Every upstream answer is read whatever its status
    (a failed request reads as an empty body), most lookup errors are
    ignored, and secondsToTimeString uses 360-day years. The package keeps
    its own ccpCache and zkillCache, modelled by a `Caches` object of its
    own. */
module LegacyCharacter {
  import opened Results
  import opened Upstream
  import opened Store
  import opened Duration
  import Decimal
  import Utils

  const SecondsInDay := 86400
  /** 30 days. */
  const SecondsInMonth := 2592000
  /** 360 days. */
  const SecondsInYear := 31104000

  const NpcCorpLimit := 2000000

  /** secondsToTimeString with 360-day years and 30-day months. */
  function SecondsToTimeString(seconds: int): string {
    Render(Decompose(seconds, SecondsInYear, SecondsInMonth, SecondsInDay))
  }

  /** For non-negative seconds the text names exactly the positive parts of
      s div 360 days, then the remainder div 30 days, then the remainder
      div one day. */
  lemma SecondsToTimeStringMeaning(s: int)
    requires s >= 0
    ensures var y := s / SecondsInYear;
      var m := (s % SecondsInYear) / SecondsInMonth;
      var d := (s % SecondsInYear) % SecondsInMonth / SecondsInDay;
      && ParseDuration(SecondsToTimeString(s)) == Some(Ymd(y, m, d))
      && y * SecondsInYear + m * SecondsInMonth + d * SecondsInDay <= s
      && s < y * SecondsInYear + m * SecondsInMonth + (d + 1) * SecondsInDay
  {
    var c := Decompose(s, SecondsInYear, SecondsInMonth, SecondsInDay);
    DecomposeNonNegative(s, SecondsInYear, SecondsInMonth, SecondsInDay);
    assert Pos(c.years) == c.years && Pos(c.months) == c.months && Pos(c.days) == c.days;
    RenderParses(c);
  }

  /** The text is never empty; it is "today" exactly when less than a day
      has passed, which includes every negative input. */
  lemma SecondsToTimeStringToday(s: int)
    ensures SecondsToTimeString(s) != ""
    ensures s < SecondsInDay ==> SecondsToTimeString(s) == "today"
    ensures s >= SecondsInDay ==> SecondsToTimeString(s) != "today"
  {
    var c := Decompose(s, SecondsInYear, SecondsInMonth, SecondsInDay);
    RenderToday(c);
    if s >= 0 {
      DecomposeNonNegative(s, SecondsInYear, SecondsInMonth, SecondsInDay);
      if c.years <= 0 && c.months <= 0 && c.days <= 0 {
        assert c.years == 0 && c.months == 0 && c.days == 0;
      }
    } else {
      DecomposeNegative(s, SecondsInYear, SecondsInMonth, SecondsInDay);
    }
  }

  /** Exactly 365 days is one 360-day year and five days here, where the
      newer helper says one year. */
  lemma YearOf365Days()
    ensures SecondsToTimeString(365 * SecondsInDay) == "1y5d"
    ensures Utils.SecondsToTimeString(365 * SecondsInDay) == "1y"
  {
    assert Decompose(31536000, SecondsInYear, SecondsInMonth, SecondsInDay) == Ymd(1, 0, 5);
    assert Render(Ymd(1, 0, 5)) == "1y5d";
    assert Decompose(31536000, Utils.SecondsInYear, Utils.SecondsInMonth, Utils.SecondsInDay) == Ymd(1, 0, 0);
    assert Render(Ymd(1, 0, 0)) == "1y";
  }

  /** daysSince, given the seconds elapsed: the whole days, truncated
      toward zero. */
  function DaysSince(elapsed: int): (d: int)
    ensures elapsed >= 0 ==> d >= 0 && 0 <= elapsed - d * SecondsInDay < SecondsInDay
    ensures elapsed < 0 ==> d <= 0 && -SecondsInDay < elapsed - d * SecondsInDay <= 0
  {
    GoRemainder(elapsed, SecondsInDay);
    GoDiv(elapsed, SecondsInDay)
  }

  /** A result whose error is ignored, read as a string: the value, or ""
      on failure. This is fetchUrl's body as its callers see it (nothing
      when the status is not 200) and the value of every lookup called as
      `x, _ := ...`. */
  function OrEmpty(res: Result<string>): (body: string)
    ensures res.Ok? ==> body == res.value
    ensures res.Err? ==> body == ""
  {
    if res.Ok? then res.value else ""
  }

  /** A panic: a failed type assertion on a cached value. */
  predicate Panicked<T>(r: Result<T>) {
    r.Err? && r.error.TypeAssertion?
  }

  // ---------------------------------------------------------------------
  // Cache-backed lookups

  /** fetchCharacterRecord: the raw record through ccpCache under the bare
      id. A failed request is cached and returned as an empty record; the
      only error is the panic of a number cached under the key. */
  method FetchCharacterRecord(c: Caches, env: Env, id: int) returns (r: Result<string>)
    modifies c
    ensures var key := Decimal.IntToString(id);
      if key in old(c.ccp) then
        r == AsText(key, old(c.ccp)[key].value) && c.ccp == old(c.ccp) && c.calls == old(c.calls)
      else
        var body := OrEmpty(env.net(|old(c.calls)|, CharacterRecord(id)));
        && r == Ok(body)
        && c.ccp == old(c.ccp)[key := Entry(Text(body), true)]
        && c.calls == old(c.calls) + [CharacterRecord(id)]
    ensures r.Err? ==> r.error == TypeAssertion(Decimal.IntToString(id))
    ensures c.zkill == old(c.zkill) && c.killmails == old(c.killmails) && c.inflight == old(c.inflight)
  {
    var key := Decimal.IntToString(id);
    if key in c.ccp {
      return AsText(key, c.ccp[key].value);
    }
    var res := c.Fetch(env.net, CharacterRecord(id));
    var body := OrEmpty(res);
    c.ccp := c.ccp[key := Entry(Text(body), true)];
    r := Ok(body);
  }

  /** fetchZKillRecord: the same through zkillCache. */
  method FetchZKillRecord(c: Caches, env: Env, id: int) returns (r: Result<string>)
    modifies c
    ensures var key := Decimal.IntToString(id);
      if key in old(c.zkill) then
        r == AsText(key, old(c.zkill)[key].value) && c.zkill == old(c.zkill) && c.calls == old(c.calls)
      else
        var body := OrEmpty(env.net(|old(c.calls)|, CharacterStats(id)));
        && r == Ok(body)
        && c.zkill == old(c.zkill)[key := Entry(Text(body), true)]
        && c.calls == old(c.calls) + [CharacterStats(id)]
    ensures r.Err? ==> r.error == TypeAssertion(Decimal.IntToString(id))
    ensures c.ccp == old(c.ccp) && c.killmails == old(c.killmails) && c.inflight == old(c.inflight)
  {
    var key := Decimal.IntToString(id);
    if key in c.zkill {
      return AsText(key, c.zkill[key].value);
    }
    var res := c.Fetch(env.net, CharacterStats(id));
    var body := OrEmpty(res);
    c.zkill := c.zkill[key := Entry(Text(body), true)];
    r := Ok(body);
  }

  /** fetchCharacterId: ccpCache under the name; otherwise the first hit of
      a strict search, cached with no expiry. No hit is an invalid name. */
  method FetchCharacterId(c: Caches, env: Env, name: string) returns (r: Result<int>)
    modifies c
    ensures if name in old(c.ccp) then
        r == AsNumber(name, old(c.ccp)[name].value) && c.ccp == old(c.ccp) && c.calls == old(c.calls)
      else
        var body := OrEmpty(env.net(|old(c.calls)|, Search(name)));
        && c.calls == old(c.calls) + [Search(name)]
        && match env.codec.search(body)
           case None => r == Err(Decode) && c.ccp == old(c.ccp)
           case Some(hits) =>
             if hits == [] then r == Err(InvalidCharacter(name)) && c.ccp == old(c.ccp)
             else r == Ok(hits[0]) && c.ccp == old(c.ccp)[name := Entry(Number(hits[0]), false)]
    ensures c.zkill == old(c.zkill) && c.killmails == old(c.killmails) && c.inflight == old(c.inflight)
  {
    if name in c.ccp {
      return AsNumber(name, c.ccp[name].value);
    }
    var res := c.Fetch(env.net, Search(name));
    var hits := env.codec.search(OrEmpty(res));
    if hits.None? {
      return Err(Decode);
    }
    if hits.value == [] {
      return Err(InvalidCharacter(name));
    }
    c.ccp := c.ccp[name := Entry(Number(hits.value[0]), false)];
    r := Ok(hits.value[0]);
  }

  /** The first name of a names answer, or why there is none. */
  function FirstName(decoded: Option<seq<string>>, invalid: Error): (r: Result<string>)
    ensures decoded.None? ==> r == Err(Decode)
    ensures decoded.Some? && decoded.value == [] ==> r == Err(invalid)
    ensures decoded.Some? && decoded.value != [] ==> r == Ok(decoded.value[0])
  {
    match decoded
    case None => Err(Decode)
    case Some(names) => if names == [] then Err(invalid) else Ok(names[0])
  }

  /** fetchCorporationName: ccpCache under the bare id; otherwise the first
      entry of corporations/names, cached with no expiry. */
  method FetchCorporationName(c: Caches, env: Env, id: int) returns (r: Result<string>)
    modifies c
    ensures var key := Decimal.IntToString(id);
      if key in old(c.ccp) then
        r == AsText(key, old(c.ccp)[key].value) && c.ccp == old(c.ccp) && c.calls == old(c.calls)
      else
        var body := OrEmpty(env.net(|old(c.calls)|, CorporationNames(id)));
        && r == FirstName(env.codec.legacyNames(body), InvalidCorporation(id))
        && c.calls == old(c.calls) + [CorporationNames(id)]
        && c.ccp == (if r.Ok? then old(c.ccp)[key := Entry(Text(r.value), false)] else old(c.ccp))
    ensures c.zkill == old(c.zkill) && c.killmails == old(c.killmails) && c.inflight == old(c.inflight)
  {
    var key := Decimal.IntToString(id);
    if key in c.ccp {
      return AsText(key, c.ccp[key].value);
    }
    var res := c.Fetch(env.net, CorporationNames(id));
    r := FirstName(env.codec.legacyNames(OrEmpty(res)), InvalidCorporation(id));
    if r.Ok? {
      c.ccp := c.ccp[key := Entry(Text(r.value), false)];
    }
  }

  /** fetchAllianceName: alliance 0 is the empty name with no cache access
      and no request; otherwise as for corporations, with alliances/names. */
  method FetchAllianceName(c: Caches, env: Env, id: int) returns (r: Result<string>)
    modifies c
    ensures id == 0 ==> r == Ok("") && c.ccp == old(c.ccp) && c.calls == old(c.calls)
    ensures id != 0 ==> var key := Decimal.IntToString(id);
      if key in old(c.ccp) then
        r == AsText(key, old(c.ccp)[key].value) && c.ccp == old(c.ccp) && c.calls == old(c.calls)
      else
        var body := OrEmpty(env.net(|old(c.calls)|, AllianceNames(id)));
        && r == FirstName(env.codec.legacyNames(body), InvalidAlliance(id))
        && c.calls == old(c.calls) + [AllianceNames(id)]
        && c.ccp == (if r.Ok? then old(c.ccp)[key := Entry(Text(r.value), false)] else old(c.ccp))
    ensures c.zkill == old(c.zkill) && c.killmails == old(c.killmails) && c.inflight == old(c.inflight)
  {
    if id == 0 {
      return Ok("");
    }
    var key := Decimal.IntToString(id);
    if key in c.ccp {
      return AsText(key, c.ccp[key].value);
    }
    var res := c.Fetch(env.net, AllianceNames(id));
    r := FirstName(env.codec.legacyNames(OrEmpty(res)), InvalidAlliance(id));
    if r.Ok? {
      c.ccp := c.ccp[key := Entry(Text(r.value), false)];
    }
  }

  /** fetchCorpStartDate: the first entry of the corporation history; not
      cached. */
  method FetchCorpStartDate(c: Caches, env: Env, id: int) returns (r: Result<string>)
    modifies c
    ensures var body := OrEmpty(env.net(|old(c.calls)|, CorporationHistory(id)));
      r == FirstName(env.codec.startDates(body), InvalidCharacter(Decimal.IntToString(id)))
    ensures c.calls == old(c.calls) + [CorporationHistory(id)]
    ensures c.ccp == old(c.ccp) && c.zkill == old(c.zkill)
    ensures c.killmails == old(c.killmails) && c.inflight == old(c.inflight)
  {
    var res := c.Fetch(env.net, CorporationHistory(id));
    r := FirstName(env.codec.startDates(OrEmpty(res)), InvalidCharacter(Decimal.IntToString(id)));
  }

  /** fetchCorpDanger: zkillCache under the bare id, asserted to hold an
      int; a fetched ratio is cached with the default time to live. */
  method FetchCorpDanger(c: Caches, env: Env, id: int) returns (r: Result<int>)
    modifies c
    ensures var key := Decimal.IntToString(id);
      if key in old(c.zkill) then
        r == AsNumber(key, old(c.zkill)[key].value) && c.zkill == old(c.zkill) && c.calls == old(c.calls)
      else
        var body := OrEmpty(env.net(|old(c.calls)|, CorporationStats(id)));
        && c.calls == old(c.calls) + [CorporationStats(id)]
        && match env.codec.zkill(body)
           case None => r == Err(Decode) && c.zkill == old(c.zkill)
           case Some(z) => r == Ok(z.danger) && c.zkill == old(c.zkill)[key := Entry(Number(z.danger), true)]
    ensures c.ccp == old(c.ccp) && c.killmails == old(c.killmails) && c.inflight == old(c.inflight)
  {
    var key := Decimal.IntToString(id);
    if key in c.zkill {
      return AsNumber(key, c.zkill[key].value);
    }
    var res := c.Fetch(env.net, CorporationStats(id));
    var z := env.codec.zkill(OrEmpty(res));
    if z.None? {
      return Err(Decode);
    }
    c.zkill := c.zkill[key := Entry(Number(z.value.danger), true)];
    r := Ok(z.value.danger);
  }

  // ---------------------------------------------------------------------
  // The last kill

  /** fetchLastKill after the request: the victim of the first kill and
      the date part of its time; (0, "") when the body does not decode or
      holds no kill. */
  function LastKillShape(decoded: Option<seq<LegacyKill>>): (r: (int, string))
    ensures (decoded.None? || decoded.value == []) ==> r == (0, "")
    ensures decoded.Some? && decoded.value != [] ==>
      r.0 == decoded.value[0].victimId && r.1 == BeforeFirst(decoded.value[0].time, 'T')
  {
    match decoded
    case None => (0, "")
    case Some(kills) => if kills == [] then (0, "") else (kills[0].victimId, BeforeFirst(kills[0].time, 'T'))
  }

  /** The date part names no time: it holds no 'T' and is a prefix of the
      time stamp. */
  lemma LastKillDate(kills: seq<LegacyKill>)
    requires kills != []
    ensures var when := LastKillShape(Some(kills)).1;
      'T' !in when && when <= kills[0].time
  {
    var when := BeforeFirst(kills[0].time, 'T');
    assert when == Utils.GetDate(kills[0].time);
  }

  /** fetchLastKill. */
  method FetchLastKill(c: Caches, env: Env, id: int) returns (who: int, when: string)
    modifies c
    ensures (who, when) == LastKillShape(env.codec.lastKills(OrEmpty(env.net(|old(c.calls)|, LastKill(id)))))
    ensures c.calls == old(c.calls) + [LastKill(id)]
    ensures c.ccp == old(c.ccp) && c.zkill == old(c.zkill)
    ensures c.killmails == old(c.killmails) && c.inflight == old(c.inflight)
  {
    var res := c.Fetch(env.net, LastKill(id));
    var shape := LastKillShape(env.codec.lastKills(OrEmpty(res)));
    who, when := shape.0, shape.1;
  }

  /** The prefix of the last-kill text: the character died, or the victim
      had no character (a structure), or the character killed someone. */
  function KillPrefix(id: int, who: int): (p: string)
    ensures p == "died " <==> who == id
    ensures p == "struct " <==> who != id && who == 0
    ensures p == "kill " <==> who != id && who != 0
  {
    if who == id then "died " else if who == 0 then "struct " else "kill "
  }

  /** A failed or empty lookup reads as a structure kill with no date (for
      any character but id 0). */
  lemma FailedLookupIsStruct(id: int, decoded: Option<seq<LegacyKill>>)
    requires id != 0 && (decoded.None? || decoded.value == [])
    ensures var (who, when) := LastKillShape(decoded);
      KillPrefix(id, who) + when == "struct "
  {
  }

  /** lastKillActivity: nothing, and no request, without a killboard. */
  method LastKillActivity(c: Caches, env: Env, id: int, hasKillboard: bool) returns (s: string)
    modifies c
    ensures !hasKillboard ==> s == "" && c.calls == old(c.calls)
    ensures hasKillboard ==>
      var (who, when) := LastKillShape(env.codec.lastKills(OrEmpty(env.net(|old(c.calls)|, LastKill(id)))));
      && s == KillPrefix(id, who) + when
      && c.calls == old(c.calls) + [LastKill(id)]
    ensures c.ccp == old(c.ccp) && c.zkill == old(c.zkill)
    ensures c.killmails == old(c.killmails) && c.inflight == old(c.inflight)
  {
    if !hasKillboard {
      return "";
    }
    var who, when := FetchLastKill(c, env, id);
    s := KillPrefix(id, who) + when;
  }

  // ---------------------------------------------------------------------
  // The record

  /** CharacterData of the legacy package. */
  datatype LegacyData = LegacyData(
    name: string,
    characterId: int,
    security: real,
    age: string,
    danger: int,
    gang: int,
    kills: int,
    losses: int,
    hasKillboard: bool,
    lastKill: string,
    corpName: string,
    corpId: int,
    corpAge: int,
    isNpcCorp: bool,
    corpDanger: int,
    allianceName: string,
    recentExplorerTotal: int,
    recentKillTotal: int,
    lastKillTime: string,
    killsLastWeek: int)

  /** The record with only the name set. */
  function Named(name: string): LegacyData {
    LegacyData(name, 0, 0.0, "", 0, 0, 0, 0, false, "", "", 0, 0, false, 0, "", 0, 0, "", 0)
  }

  /** The fields the record takes from the character record. */
  function WithCcp(cd: LegacyData, cr: CcpRecord, age: string): (r: LegacyData)
    ensures r.isNpcCorp <==> r.corpId < NpcCorpLimit
    ensures r.corpId == cr.corporationId && r.security == cr.security && r.age == age
    ensures r.(age := cd.age, corpId := cd.corpId, security := cd.security, isNpcCorp := cd.isNpcCorp) == cd
  {
    cd.(age := age, corpId := cr.corporationId, security := cr.security, isNpcCorp := cr.corporationId < NpcCorpLimit)
  }

  /** The fields the record takes from the zKillboard totals. */
  function WithZkill(cd: LegacyData, zr: ZkillStats): (r: LegacyData)
    ensures r.hasKillboard <==> r.kills != 0 || r.losses != 0
    ensures r.danger == zr.danger && r.gang == zr.gang && r.kills == zr.kills && r.losses == zr.losses
    ensures r.(danger := cd.danger, gang := cd.gang, kills := cd.kills, losses := cd.losses,
               hasKillboard := cd.hasKillboard) == cd
  {
    cd.(danger := zr.danger, gang := zr.gang, kills := zr.kills, losses := zr.losses,
        hasKillboard := zr.kills != 0 || zr.losses != 0)
  }

  /** A record FetchCharacterData completes: the name asked for, the
      derived flags, the last-kill text empty without a killboard, and the
      fields the package never fills left zero. */
  predicate Complete(cd: LegacyData, name: string) {
    && cd.name == name
    && (cd.isNpcCorp <==> cd.corpId < NpcCorpLimit)
    && (cd.hasKillboard <==> cd.kills != 0 || cd.losses != 0)
    && (!cd.hasKillboard ==> cd.lastKill == "")
    && cd.recentExplorerTotal == 0 && cd.recentKillTotal == 0
    && cd.lastKillTime == "" && cd.killsLastWeek == 0
  }

  /** The corporation and alliance names and the corporation age, each
      read with its error ignored; only a panic ends the step early. */
  method FillCorporation(c: Caches, env: Env, cd: LegacyData, allianceId: int)
    returns (cd': LegacyData, panic: Option<Error>)
    modifies c
    ensures panic.Some? ==> panic.value.TypeAssertion? && cd' == cd
    ensures panic.None? ==> cd' == cd.(corpName := cd'.corpName, allianceName := cd'.allianceName, corpAge := cd'.corpAge)
  {
    cd' := cd;
    var corpName := FetchCorporationName(c, env, cd.corpId);
    if Panicked(corpName) {
      return cd, Some(corpName.error);
    }
    var allianceName := FetchAllianceName(c, env, allianceId);
    if Panicked(allianceName) {
      return cd, Some(allianceName.error);
    }
    var startDate := FetchCorpStartDate(c, env, cd.characterId);
    cd' := cd.(corpName := OrEmpty(corpName), allianceName := OrEmpty(allianceName),
               corpAge := DaysSince(env.secondsSince(OrEmpty(startDate))));
    panic := None;
  }

  /** The corporation danger, its error ignored, then the last-kill text,
      which stays empty without a killboard. */
  method FillActivity(c: Caches, env: Env, cd: LegacyData)
    returns (cd': LegacyData, panic: Option<Error>)
    modifies c
    ensures panic.Some? ==> panic.value.TypeAssertion? && cd' == cd
    ensures panic.None? ==> cd' == cd.(corpDanger := cd'.corpDanger, lastKill := cd'.lastKill)
    ensures panic.None? && !cd.hasKillboard ==> cd'.lastKill == ""
  {
    var corpDanger := FetchCorpDanger(c, env, cd.corpId);
    if Panicked(corpDanger) {
      return cd, Some(corpDanger.error);
    }
    var lastKill := LastKillActivity(c, env, cd.characterId, cd.hasKillboard);
    cd' := cd.(corpDanger := if corpDanger.Ok? then corpDanger.value else 0, lastKill := lastKill);
    panic := None;
  }

  /** FetchCharacterData: the steps run one after the other in a fixed
      order, ending early only when the name does not resolve, when the
      character record or the zKillboard totals do not decode, or on a
      panic. The corporation and alliance names, the corporation start
      date and the corporation danger are read with their errors ignored. */
  method FetchCharacterData(c: Caches, env: Env, name: string) returns (cd: LegacyData, err: Option<Error>)
    modifies c
    ensures err == Some(NotFound(name)) ==> cd == Named(name) && |c.calls| <= |old(c.calls)| + 1
    ensures err.None? ==> Complete(cd, name)
    ensures err.Some? ==> cd.name == name
    ensures err.Some? ==> err == Some(NotFound(name)) || err == Some(Decode) || err.value.TypeAssertion?
  {
    cd := Named(name);
    var id := FetchCharacterId(c, env, name);
    if id.Err? {
      return cd, Some(if Panicked(id) then id.error else NotFound(name));
    }
    cd := cd.(characterId := id.value);
    var rec := FetchCharacterRecord(c, env, id.value);
    if rec.Err? {
      return cd, Some(rec.error);
    }
    var decoded := env.codec.ccp(rec.value);
    if decoded.None? {
      return cd, Some(Decode);
    }
    cd := WithCcp(cd, decoded.value, SecondsToTimeString(env.secondsSince(decoded.value.birthday)));
    cd, err := FillCorporation(c, env, cd, decoded.value.allianceId);
    if err.Some? {
      return;
    }
    var zkillRec := FetchZKillRecord(c, env, id.value);
    if zkillRec.Err? {
      return cd, Some(zkillRec.error);
    }
    var zr := env.codec.zkill(zkillRec.value);
    if zr.None? {
      return cd, Some(Decode);
    }
    cd := WithZkill(cd, zr.value);
    cd, err := FillActivity(c, env, cd);
  }
}
