/** character.go: how one character's record is assembled. The name is
    resolved to an id through ccpCache; then three phases of fetches run,
    each merged into the record with the fill-empty merge of handleMerges,
    and the first error of a phase ends the assembly. The fetches of a
    phase run concurrently in the program; the model runs them in launch
    order and proves that the order of their (disjoint) results does not
    matter. */
module Character {
  import opened Results
  import opened Upstream
  import opened Store
  import opened Profile
  import Decimal
  import Utils
  import KillAnalyzer

  /** Corporations with a smaller id are run by the game (NPC corporations). */
  const NpcCorpLimit := 2000000

  /** Display names that replace the resolved name of some characters. */
  const Nicknames: map<string, string> := map["Mynxee" := "Space Mom", "Portia Tigana" := "Tiggs"]

  // ---------------------------------------------------------------------
  // Field derivations (fetchCCPRecord, fetchZKillRecord)

  /** The partial record of fetchCCPRecord: the character's corporation,
      alliance and security status, its age as text, and whether the
      corporation is an NPC one. */
  function CcpProfile(cr: CcpRecord, age: string): (cd: CharacterData)
    ensures cd.isNpcCorp <==> cd.corpId < NpcCorpLimit
    ensures cd.corpId == cr.corporationId && cd.allianceId == cr.allianceId
    ensures cd.security == cr.security && cd.age == age
    ensures Within(cd, CcpRecordFetch)
  {
    Empty().(age := age, corpId := cr.corporationId, security := cr.security,
             isNpcCorp := cr.corporationId < NpcCorpLimit, allianceId := cr.allianceId)
  }

  /** The partial record of fetchZKillRecord: the zKillboard totals, whether
      the character has a killboard at all, and that zKillboard was used. */
  function ZkillProfile(zr: ZkillStats): (cd: CharacterData)
    ensures cd.hasKillboard <==> cd.kills != 0 || cd.losses != 0
    ensures cd.danger == zr.danger && cd.gang == zr.gang
    ensures cd.kills == zr.kills && cd.losses == zr.losses
    ensures cd.zkillUsed
    ensures Within(cd, ZkillRecordFetch)
  {
    Empty().(danger := zr.danger, gang := zr.gang, kills := zr.kills, losses := zr.losses,
             hasKillboard := zr.kills != 0 || zr.losses != 0, zkillUsed := true)
  }

  /** fetchCCPRecord after the raw JSON has been obtained (or not). */
  function CcpOutcome(json: Result<string>, env: Env): (r: Response)
    ensures Within(r.record, CcpRecordFetch)
    ensures r.err.None? ==> (r.record.isNpcCorp <==> r.record.corpId < NpcCorpLimit)
    ensures r.err.Some? ==> r.record == Empty()
  {
    if json.Err? then Response(Empty(), Some(json.error))
    else match env.codec.ccp(json.value)
      case None => Response(Empty(), Some(Decode))
      case Some(cr) => Response(CcpProfile(cr, Utils.SecondsToTimeString(env.secondsSince(cr.birthday))), None)
  }

  /** fetchZKillRecord after the raw JSON has been obtained (or not). */
  function ZkillOutcome(json: Result<string>, env: Env): (r: Response)
    ensures Within(r.record, ZkillRecordFetch)
    ensures r.err.None? ==> r.record.zkillUsed && (r.record.hasKillboard <==> r.record.kills != 0 || r.record.losses != 0)
    ensures r.err.Some? ==> r.record == Empty()
  {
    if json.Err? then Response(Empty(), Some(json.error))
    else match env.codec.zkill(json.value)
      case None => Response(Empty(), Some(Decode))
      case Some(zr) => Response(ZkillProfile(zr), None)
  }

  /** A read through a cache of raw JSON: the cached text (a failed type
      assertion when a number sits under the key), or the answer to the
      next request. */
  function ReadThrough(m: map<string, Entry<CacheVal>>, key: string, n: nat, net: Network, e: Endpoint): Result<string> {
    if key in m then AsText(key, m[key].value) else net(n, e)
  }

  /** The cache after such a read: a body fetched with success is stored
      with the default time to live. */
  function StoreThrough(m: map<string, Entry<CacheVal>>, key: string, n: nat, net: Network, e: Endpoint): map<string, Entry<CacheVal>> {
    if key in m || net(n, e).Err? then m else m[key := Entry(Text(net(n, e).value), true)]
  }

  /** The request log after a read through a cache: one request on a miss. */
  function CallsAfter<T>(m: map<string, T>, key: string, calls: seq<Endpoint>, e: Endpoint): seq<Endpoint> {
    if key in m then calls else calls + [e]
  }

  // ---------------------------------------------------------------------
  // Cache-backed fetches

  /** fetchCharacterJSON: the raw character record, through ccpCache under
      the bare numeric id. Whatever is cached under that number is served,
      whichever fetch put it there. */
  method FetchCharacterJson(c: Caches, env: Env, id: int) returns (r: Result<string>)
    modifies c
    ensures var key := Decimal.IntToString(id);
      && r == ReadThrough(old(c.ccp), key, |old(c.calls)|, env.net, CharacterRecord(id))
      && c.ccp == StoreThrough(old(c.ccp), key, |old(c.calls)|, env.net, CharacterRecord(id))
      && c.calls == CallsAfter(old(c.ccp), key, old(c.calls), CharacterRecord(id))
    ensures c.zkill == old(c.zkill) && c.killmails == old(c.killmails) && c.inflight == old(c.inflight)
  {
    var key := Decimal.IntToString(id);
    if key in c.ccp {
      return AsText(key, c.ccp[key].value);
    }
    r := c.Fetch(env.net, CharacterRecord(id));
    if r.Ok? {
      c.ccp := c.ccp[key := Entry(Text(r.value), true)];
    }
  }

  /** fetchZKillJSON: the raw zKillboard totals, through zkillCache under
      the bare numeric id. */
  method FetchZkillJson(c: Caches, env: Env, id: int) returns (r: Result<string>)
    modifies c
    ensures var key := Decimal.IntToString(id);
      && r == ReadThrough(old(c.zkill), key, |old(c.calls)|, env.net, CharacterStats(id))
      && c.zkill == StoreThrough(old(c.zkill), key, |old(c.calls)|, env.net, CharacterStats(id))
      && c.calls == CallsAfter(old(c.zkill), key, old(c.calls), CharacterStats(id))
    ensures c.ccp == old(c.ccp) && c.killmails == old(c.killmails) && c.inflight == old(c.inflight)
  {
    var key := Decimal.IntToString(id);
    if key in c.zkill {
      return AsText(key, c.zkill[key].value);
    }
    r := c.Fetch(env.net, CharacterStats(id));
    if r.Ok? {
      c.zkill := c.zkill[key := Entry(Text(r.value), true)];
    }
  }

  /** fetchCCPRecord. */
  method FetchCcpRecord(c: Caches, env: Env, id: int) returns (r: Response)
    modifies c
    ensures var key := Decimal.IntToString(id);
      && r == CcpOutcome(ReadThrough(old(c.ccp), key, |old(c.calls)|, env.net, CharacterRecord(id)), env)
      && c.ccp == StoreThrough(old(c.ccp), key, |old(c.calls)|, env.net, CharacterRecord(id))
      && c.calls == CallsAfter(old(c.ccp), key, old(c.calls), CharacterRecord(id))
    ensures c.zkill == old(c.zkill) && c.killmails == old(c.killmails) && c.inflight == old(c.inflight)
  {
    var json := FetchCharacterJson(c, env, id);
    r := CcpOutcome(json, env);
  }

  /** fetchZKillRecord. */
  method FetchZkillRecord(c: Caches, env: Env, id: int) returns (r: Response)
    modifies c
    ensures var key := Decimal.IntToString(id);
      && r == ZkillOutcome(ReadThrough(old(c.zkill), key, |old(c.calls)|, env.net, CharacterStats(id)), env)
      && c.zkill == StoreThrough(old(c.zkill), key, |old(c.calls)|, env.net, CharacterStats(id))
      && c.calls == CallsAfter(old(c.zkill), key, old(c.calls), CharacterStats(id))
    ensures c.ccp == old(c.ccp) && c.killmails == old(c.killmails) && c.inflight == old(c.inflight)
  {
    var json := FetchZkillJson(c, env, id);
    r := ZkillOutcome(json, env);
  }

  /** fetchCorpStartDate after the request: the age in the current
      corporation, from the first history entry; no entry is no error. */
  function StartDateOutcome(res: Result<string>, env: Env): (r: Response)
    ensures Within(r.record, CorpStartDateFetch)
  {
    if res.Err? then Response(Empty(), Some(res.error))
    else match env.codec.startDates(res.value)
      case None => Response(Empty(), Some(Decode))
      case Some(dates) =>
        if dates == [] then Response(Empty(), None)
        else Response(Empty().(corpAge := Utils.SecondsToTimeString(env.secondsSince(dates[0]))), None)
  }

  /** fetchCorpStartDate: not cached. */
  method FetchCorpStartDate(c: Caches, env: Env, id: int) returns (r: Response)
    modifies c
    ensures r == StartDateOutcome(env.net(|old(c.calls)|, CorporationHistory(id)), env)
    ensures c.calls == old(c.calls) + [CorporationHistory(id)]
    ensures c.ccp == old(c.ccp) && c.zkill == old(c.zkill)
    ensures c.killmails == old(c.killmails) && c.inflight == old(c.inflight)
  {
    var res := c.Fetch(env.net, CorporationHistory(id));
    r := StartDateOutcome(res, env);
  }

  /** A name looked up through ccpCache: the cached text, or the name
      decoded from the answer to the next request. */
  function NameThrough(m: map<string, Entry<CacheVal>>, key: string, n: nat, net: Network,
                       e: Endpoint, decode: string -> Result<string>): Result<string> {
    if key in m then AsText(key, m[key].value)
    else
      var res := net(n, e);
      if res.Err? then res else decode(res.value)
  }

  /** ccpCache after such a lookup: a name fetched with success is stored
      with no expiry. */
  function NameStore(m: map<string, Entry<CacheVal>>, key: string, n: nat, net: Network,
                     e: Endpoint, decode: string -> Result<string>): map<string, Entry<CacheVal>> {
    var r := NameThrough(m, key, n, net, e, decode);
    if key in m || r.Err? then m else m[key := Entry(Text(r.value), false)]
  }

  /** The `{"name": ...}` body of a corporation or an alliance. */
  function NameDecoder(codec: Codec): string -> Result<string> {
    s => match codec.name(s)
      case None => Err(Decode)
      case Some(x) => Ok(x)
  }

  /** The first entry of a universe/names answer; none is an invalid ship. */
  function TypeNameDecoder(codec: Codec, id: int): string -> Result<string> {
    s => match codec.typeNames(s)
      case None => Err(Decode)
      case Some(names) => if names == [] then Err(InvalidShip(id)) else Ok(names[0])
  }

  /** fetchCorporationName: ccpCache under the bare id, set with no expiry. */
  method FetchCorporationName(c: Caches, env: Env, id: int) returns (r: Response)
    modifies c
    ensures var key := Decimal.IntToString(id);
      var name := NameThrough(old(c.ccp), key, |old(c.calls)|, env.net, Corporation(id), NameDecoder(env.codec));
      && r == (if name.Ok? then Response(Empty().(corpName := name.value), None) else Response(Empty(), Some(name.error)))
      && c.ccp == NameStore(old(c.ccp), key, |old(c.calls)|, env.net, Corporation(id), NameDecoder(env.codec))
      && c.calls == CallsAfter(old(c.ccp), key, old(c.calls), Corporation(id))
    ensures Within(r.record, CorporationNameFetch)
    ensures c.zkill == old(c.zkill) && c.killmails == old(c.killmails) && c.inflight == old(c.inflight)
  {
    var key := Decimal.IntToString(id);
    if key in c.ccp {
      var name := AsText(key, c.ccp[key].value);
      return if name.Ok? then Response(Empty().(corpName := name.value), None) else Response(Empty(), Some(name.error));
    }
    var res := c.Fetch(env.net, Corporation(id));
    if res.Err? {
      return Response(Empty(), Some(res.error));
    }
    var entry := env.codec.name(res.value);
    if entry.None? {
      return Response(Empty(), Some(Decode));
    }
    c.ccp := c.ccp[key := Entry(Text(entry.value), false)];
    r := Response(Empty().(corpName := entry.value), None);
  }

  /** fetchAllianceName: alliance 0 (no alliance) is the empty name with no
      cache access and no request; otherwise as for corporations. */
  method FetchAllianceName(c: Caches, env: Env, id: int) returns (r: Response)
    modifies c
    ensures id == 0 ==> r == Response(Empty(), None) && c.ccp == old(c.ccp) && c.calls == old(c.calls)
    ensures id != 0 ==> var key := Decimal.IntToString(id);
      var name := NameThrough(old(c.ccp), key, |old(c.calls)|, env.net, Alliance(id), NameDecoder(env.codec));
      && r == (if name.Ok? then Response(Empty().(allianceName := name.value), None) else Response(Empty(), Some(name.error)))
      && c.ccp == NameStore(old(c.ccp), key, |old(c.calls)|, env.net, Alliance(id), NameDecoder(env.codec))
      && c.calls == CallsAfter(old(c.ccp), key, old(c.calls), Alliance(id))
    ensures Within(r.record, AllianceNameFetch)
    ensures c.zkill == old(c.zkill) && c.killmails == old(c.killmails) && c.inflight == old(c.inflight)
  {
    if id == 0 {
      return Response(Empty(), None);
    }
    var key := Decimal.IntToString(id);
    if key in c.ccp {
      var name := AsText(key, c.ccp[key].value);
      return if name.Ok? then Response(Empty().(allianceName := name.value), None) else Response(Empty(), Some(name.error));
    }
    var res := c.Fetch(env.net, Alliance(id));
    if res.Err? {
      return Response(Empty(), Some(res.error));
    }
    var entry := env.codec.name(res.value);
    if entry.None? {
      return Response(Empty(), Some(Decode));
    }
    c.ccp := c.ccp[key := Entry(Text(entry.value), false)];
    r := Response(Empty().(allianceName := entry.value), None);
  }

  /** The ccpCache key of a ship type's name. */
  function ShipKey(id: int): string {
    "ship:" + Decimal.IntToString(id)
  }

  /** fetchItemName: ccpCache under "ship:<id>", set with no expiry; an
      empty answer is an invalid ship id. */
  method FetchItemName(c: Caches, env: Env, id: int) returns (r: Response)
    modifies c
    ensures var key := ShipKey(id);
      var name := NameThrough(old(c.ccp), key, |old(c.calls)|, env.net, UniverseNames([id]), TypeNameDecoder(env.codec, id));
      && r == (if name.Ok? then Response(Empty().(favoriteShipName := name.value), None) else Response(Empty(), Some(name.error)))
      && c.ccp == NameStore(old(c.ccp), key, |old(c.calls)|, env.net, UniverseNames([id]), TypeNameDecoder(env.codec, id))
      && c.calls == CallsAfter(old(c.ccp), key, old(c.calls), UniverseNames([id]))
    ensures Within(r.record, ItemNameFetch)
    ensures c.zkill == old(c.zkill) && c.killmails == old(c.killmails) && c.inflight == old(c.inflight)
  {
    var key := ShipKey(id);
    if key in c.ccp {
      var name := AsText(key, c.ccp[key].value);
      return if name.Ok? then Response(Empty().(favoriteShipName := name.value), None) else Response(Empty(), Some(name.error));
    }
    var res := c.Fetch(env.net, UniverseNames([id]));
    if res.Err? {
      return Response(Empty(), Some(res.error));
    }
    var names := env.codec.typeNames(res.value);
    if names.None? {
      return Response(Empty(), Some(Decode));
    }
    if names.value == [] {
      return Response(Empty(), Some(InvalidShip(id)));
    }
    c.ccp := c.ccp[key := Entry(Text(names.value[0]), false)];
    r := Response(Empty().(favoriteShipName := names.value[0]), None);
  }

  /** fetchCorpDanger: zkillCache under the bare id, where the number is
      asserted to be an int; a fetched danger ratio is stored with the
      default time to live. */
  method FetchCorpDanger(c: Caches, env: Env, id: int) returns (r: Response)
    modifies c
    ensures var key := Decimal.IntToString(id);
      if key in old(c.zkill) then
        var danger := AsNumber(key, old(c.zkill)[key].value);
        && r == (if danger.Ok? then Response(Empty().(corpDanger := danger.value), None) else Response(Empty(), Some(danger.error)))
        && c.zkill == old(c.zkill) && c.calls == old(c.calls)
      else
        var res := env.net(|old(c.calls)|, CorporationStats(id));
        && c.calls == old(c.calls) + [CorporationStats(id)]
        && if res.Err? then r == Response(Empty(), Some(res.error)) && c.zkill == old(c.zkill)
           else match env.codec.zkill(res.value)
             case None => r == Response(Empty(), Some(Decode)) && c.zkill == old(c.zkill)
             case Some(z) =>
               && r == Response(Empty().(corpDanger := z.danger), None)
               && c.zkill == old(c.zkill)[key := Entry(Number(z.danger), true)]
    ensures Within(r.record, CorpDangerFetch)
    ensures c.ccp == old(c.ccp) && c.killmails == old(c.killmails) && c.inflight == old(c.inflight)
  {
    var key := Decimal.IntToString(id);
    if key in c.zkill {
      var danger := AsNumber(key, c.zkill[key].value);
      return if danger.Ok? then Response(Empty().(corpDanger := danger.value), None) else Response(Empty(), Some(danger.error));
    }
    var res := c.Fetch(env.net, CorporationStats(id));
    if res.Err? {
      return Response(Empty(), Some(res.error));
    }
    var z := env.codec.zkill(res.value);
    if z.None? {
      return Response(Empty(), Some(Decode));
    }
    c.zkill := c.zkill[key := Entry(Number(z.value.danger), true)];
    r := Response(Empty().(corpDanger := z.value.danger), None);
  }

  // ---------------------------------------------------------------------
  // Name resolution (fetchCharacterID, loadCharacterIds)

  /** What fetchCharacterID answers for `name` given ccpCache `m`, when
      `n` requests have been made before it. */
  function IdOutcome(m: map<string, Entry<CacheVal>>, n: nat, env: Env, name: string): (r: Result<int>)
    ensures name in m ==> (r.Ok? <==> m[name].value.Number?)
    ensures name !in m && env.net(n, UniverseIds([name])).Err? ==> r == Err(env.net(n, UniverseIds([name])).error)
    ensures name !in m && r.Ok? ==>
      var res := env.net(n, UniverseIds([name]));
      res.Ok? && env.codec.ids(res.value).Some? && |env.codec.ids(res.value).value| > 0
      && r.value == env.codec.ids(res.value).value[0].id
  {
    if name in m then AsNumber(name, m[name].value)
    else
      var res := env.net(n, UniverseIds([name]));
      if res.Err? then Err(res.error)
      else match env.codec.ids(res.value)
        case None => Err(Decode)
        case Some(es) => if es == [] then Err(NoEntries) else Ok(es[0].id)
  }

  /** fetchCharacterID: ccpCache under the name itself. A hit makes no
      request; otherwise the first resolved id is cached with no expiry.
      An answer without entries, a body that does not decode and a failed
      request are errors. */
  method FetchCharacterId(c: Caches, env: Env, name: string) returns (r: Result<int>)
    modifies c
    ensures if name in old(c.ccp) then
        r == AsNumber(name, old(c.ccp)[name].value) && c.calls == old(c.calls) && c.ccp == old(c.ccp)
      else
        var res := env.net(|old(c.calls)|, UniverseIds([name]));
        && c.calls == old(c.calls) + [UniverseIds([name])]
        && if res.Err? then r == Err(res.error) && c.ccp == old(c.ccp)
           else match env.codec.ids(res.value)
             case None => r == Err(Decode) && c.ccp == old(c.ccp)
             case Some(es) =>
               if es == [] then r == Err(NoEntries) && c.ccp == old(c.ccp)
               else r == Ok(es[0].id) && c.ccp == old(c.ccp)[name := Entry(Number(es[0].id), false)]
    ensures c.zkill == old(c.zkill) && c.killmails == old(c.killmails) && c.inflight == old(c.inflight)
    ensures r == IdOutcome(old(c.ccp), |old(c.calls)|, env, name)
  {
    if name in c.ccp {
      return AsNumber(name, c.ccp[name].value);
    }
    var res := c.Fetch(env.net, UniverseIds([name]));
    if res.Err? {
      return Err(res.error);
    }
    var entries := env.codec.ids(res.value);
    if entries.None? {
      return Err(Decode);
    }
    if entries.value == [] {
      return Err(NoEntries);
    }
    c.ccp := c.ccp[name := Entry(Number(entries.value[0].id), false)];
    r := Ok(entries.value[0].id);
  }

  /** A second lookup of a name resolved by a first one is a cache hit. */
  method FetchCharacterIdTwice(c: Caches, env: Env, name: string) returns (first: Result<int>, second: Result<int>)
    modifies c
    requires name !in c.ccp
    ensures first.Ok? ==> second == first && |c.calls| == |old(c.calls)| + 1
  {
    first := FetchCharacterId(c, env, name);
    second := FetchCharacterId(c, env, name);
  }

  /** The names loadCharacterIds asks for: the non-empty ones not cached,
      in order. */
  function Missing(names: seq<string>, m: map<string, Entry<CacheVal>>): (find: seq<string>)
    ensures forall x :: x in find <==> x in names && x != "" && x !in m
  {
    if names == [] then []
    else
      var n := names[|names| - 1];
      Missing(names[..|names| - 1], m) + (if n != "" && n !in m then [n] else [])
  }

  /** ccpCache after the resolved entries are stored, in order, each under
      its name with no expiry. */
  function StoreIds(m: map<string, Entry<CacheVal>>, es: seq<IdEntry>): map<string, Entry<CacheVal>> {
    if es == [] then m
    else
      var e := es[|es| - 1];
      StoreIds(m, es[..|es| - 1])[e.name := Entry(Number(e.id), false)]
  }

  /** After StoreIds every resolved name is cached, with no expiry, as the
      id of an entry of that name. */
  lemma {:induction false} StoreIdsHas(m: map<string, Entry<CacheVal>>, es: seq<IdEntry>, i: nat)
    requires i < |es|
    ensures var r := StoreIds(m, es);
      && es[i].name in r && r[es[i].name].value.Number? && !r[es[i].name].expires
      && exists j :: 0 <= j < |es| && es[j].name == es[i].name && r[es[i].name].value.number == es[j].id
    decreases |es|
  {
    var init, e := es[..|es| - 1], es[|es| - 1];
    if es[i].name == e.name {
      assert es[|es| - 1].name == es[i].name;
    } else {
      assert init[i] == es[i];
      StoreIdsHas(m, init, i);
      var j :| 0 <= j < |init| && init[j].name == init[i].name
               && StoreIds(m, init)[init[i].name].value.number == init[j].id;
      assert es[j] == init[j];
    }
  }

  /** A key that no resolved name equals keeps its entry, or its absence. */
  lemma {:induction false} StoreIdsKeeps(m: map<string, Entry<CacheVal>>, es: seq<IdEntry>, k: string)
    requires forall i :: 0 <= i < |es| ==> es[i].name != k
    ensures k in StoreIds(m, es) <==> k in m
    ensures k in m ==> StoreIds(m, es)[k] == m[k]
    decreases |es|
  {
    if es != [] {
      var init := es[..|es| - 1];
      assert es[|es| - 1].name != k;
      forall i | 0 <= i < |init|
        ensures init[i].name != k
      {
        assert init[i] == es[i];
      }
      StoreIdsKeeps(m, init, k);
    }
  }

  /** loadCharacterIds: one request resolves every name that is neither
      empty nor cached. With nothing to resolve it succeeds without a
      request; an answer without entries fails; otherwise every entry is
      cached under its returned name with no expiry. */
  method LoadCharacterIds(c: Caches, env: Env, names: seq<string>) returns (ok: bool, err: Option<Error>)
    modifies c
    ensures var find := Missing(names, old(c.ccp));
      if find == [] then
        ok && err.None? && c.calls == old(c.calls) && c.ccp == old(c.ccp)
      else
        var res := env.net(|old(c.calls)|, UniverseIds(find));
        && c.calls == old(c.calls) + [UniverseIds(find)]
        && if res.Err? then !ok && err == Some(res.error) && c.ccp == old(c.ccp)
           else match env.codec.ids(res.value)
             case None => !ok && err == Some(Decode) && c.ccp == old(c.ccp)
             case Some(es) =>
               if es == [] then !ok && err == Some(NoEntries) && c.ccp == old(c.ccp)
               else ok && err.None? && c.ccp == StoreIds(old(c.ccp), es)
    ensures c.zkill == old(c.zkill) && c.killmails == old(c.killmails) && c.inflight == old(c.inflight)
  {
    var find := CollectMissing(names, c.ccp);
    if |find| == 0 {
      return true, None;
    }
    var res := c.Fetch(env.net, UniverseIds(find));
    if res.Err? {
      return false, Some(res.error);
    }
    var entries := env.codec.ids(res.value);
    if entries.None? {
      return false, Some(Decode);
    }
    if |entries.value| == 0 {
      return false, Some(NoEntries);
    }
    StoreEntries(c, entries.value);
    return true, None;
  }

  /** The first loop of loadCharacterIds: the names to resolve. */
  method CollectMissing(names: seq<string>, m: map<string, Entry<CacheVal>>) returns (find: seq<string>)
    ensures find == Missing(names, m)
  {
    find := [];
    var i := 0;
    while i < |names|
      invariant 0 <= i <= |names|
      invariant find == Missing(names[..i], m)
    {
      assert names[..i + 1][..i] == names[..i];
      if |names[i]| != 0 && names[i] !in m {
        find := find + [names[i]];
      }
      i := i + 1;
    }
    assert names[..i] == names;
  }

  /** The second loop of loadCharacterIds: every entry cached under its
      name, in order, with no expiry. */
  method StoreEntries(c: Caches, es: seq<IdEntry>)
    modifies c
    ensures c.ccp == StoreIds(old(c.ccp), es)
    ensures c.calls == old(c.calls)
    ensures c.zkill == old(c.zkill) && c.killmails == old(c.killmails) && c.inflight == old(c.inflight)
  {
    var j := 0;
    while j < |es|
      invariant 0 <= j <= |es|
      invariant c.ccp == StoreIds(old(c.ccp), es[..j])
      invariant c.calls == old(c.calls)
      invariant c.zkill == old(c.zkill) && c.killmails == old(c.killmails) && c.inflight == old(c.inflight)
    {
      assert es[..j + 1][..j] == es[..j];
      c.ccp := c.ccp[es[j].name := Entry(Number(es[j].id), false)];
      j := j + 1;
    }
    assert es[..j] == es;
  }

  // ---------------------------------------------------------------------
  // The overlapping keyspaces of ccpCache and zkillCache

  /** ccpCache shares the bare numeric key between character JSON and
      corporation names: once a corporation's name is cached, a character
      with the same id number is "served" that name as its JSON, with no
      request. */
  method CorpNameServedAsCharacterJson(c: Caches, env: Env, id: int) returns (name: Response, json: Result<string>)
    modifies c
    requires Decimal.IntToString(id) !in c.ccp
    requires env.net(|c.calls|, Corporation(id)).Ok?
    requires env.codec.name(env.net(|c.calls|, Corporation(id)).value).Some?
    ensures name.err.None? && json == Ok(name.record.corpName)
    ensures c.calls == old(c.calls) + [Corporation(id)]
  {
    name := FetchCorporationName(c, env, id);
    json := FetchCharacterJson(c, env, id);
  }

  /** zkillCache shares the bare numeric key between a character's raw
      totals (a string) and a corporation's danger ratio (an int): looking
      up a corporation danger under a key holding character JSON fails the
      type assertion. */
  method ZkillKeyClash(c: Caches, env: Env, id: int) returns (stats: Response, danger: Response)
    modifies c
    requires Decimal.IntToString(id) !in c.zkill
    requires env.net(|c.calls|, CharacterStats(id)).Ok?
    ensures danger == Response(Empty(), Some(TypeAssertion(Decimal.IntToString(id))))
  {
    stats := FetchZkillRecord(c, env, id);
    danger := FetchCorpDanger(c, env, id);
  }

  // ---------------------------------------------------------------------
  // The phases of fetchCharacterData

  /** One fetch of a phase, with the id it is given. */
  datatype Job = Job(fetcher: Fetcher, arg: int)

  /** Phase 1: the character record, the zKillboard totals (only when
      zKillboard is in use) and the corporation history. */
  function Phase1(cd: CharacterData): seq<Job> {
    [Job(CcpRecordFetch, cd.characterId)]
    + (if cd.zkillUsed then [Job(ZkillRecordFetch, cd.characterId)] else [])
    + [Job(CorpStartDateFetch, cd.characterId)]
  }

  /** Phase 2, decided from the record after phase 1. */
  function Phase2(cd: CharacterData, analyzeKills: bool): seq<Job> {
    (if cd.zkillUsed then [Job(CorpDangerFetch, cd.corpId)] else [])
    + [Job(AllianceNameFetch, cd.allianceId), Job(CorporationNameFetch, cd.corpId)]
    + (if cd.hasKillboard then [Job(LastKillActivityFetch, cd.characterId)] else [])
    + (if analyzeKills && cd.kills != 0
       then [Job(KillHistoryFetch, cd.characterId), Job(RecentKillHistoryFetch, cd.characterId)]
       else [])
  }

  /** Phase 3: the favourite ship's name, only when there is one. */
  function Phase3(cd: CharacterData): seq<Job> {
    if cd.favoriteShipId != 0 then [Job(ItemNameFetch, cd.favoriteShipId)] else []
  }

  function PhaseJobs(k: nat, cd: CharacterData, analyzeKills: bool): seq<Job> {
    if k == 0 then Phase1(cd) else if k == 1 then Phase2(cd, analyzeKills) else Phase3(cd)
  }

  /** Which phase-2 fetches run: the alliance and corporation names always;
      the corporation danger exactly when zKillboard is in use; the last
      kill exactly when the character has a killboard; the kill history and
      the last week's kills exactly when kills are analysed and the
      character has kills. */
  lemma Phase2Selection(cd: CharacterData, analyzeKills: bool)
    ensures var jobs := Phase2(cd, analyzeKills);
      && Job(AllianceNameFetch, cd.allianceId) in jobs
      && Job(CorporationNameFetch, cd.corpId) in jobs
      && (Job(CorpDangerFetch, cd.corpId) in jobs <==> cd.zkillUsed)
      && (Job(LastKillActivityFetch, cd.characterId) in jobs <==> cd.hasKillboard)
      && (Job(KillHistoryFetch, cd.characterId) in jobs <==> analyzeKills && cd.kills != 0)
      && (Job(RecentKillHistoryFetch, cd.characterId) in jobs <==> analyzeKills && cd.kills != 0)
  {
    var jobs := Phase2(cd, analyzeKills);
    var a := if cd.zkillUsed then [Job(CorpDangerFetch, cd.corpId)] else [];
    var b := [Job(AllianceNameFetch, cd.allianceId), Job(CorporationNameFetch, cd.corpId)];
    var l := if cd.hasKillboard then [Job(LastKillActivityFetch, cd.characterId)] else [];
    var h := if analyzeKills && cd.kills != 0
             then [Job(KillHistoryFetch, cd.characterId), Job(RecentKillHistoryFetch, cd.characterId)]
             else [];
    assert jobs == a + b + l + h;
  }

  /** The fetches of a phase are all different, so their partial records
      set disjoint fields. */
  predicate DistinctFetchers(jobs: seq<Job>) {
    forall i, j :: 0 <= i < j < |jobs| ==> jobs[i].fetcher != jobs[j].fetcher
  }

  lemma DistinctJoin(x: seq<Job>, y: seq<Job>)
    requires DistinctFetchers(x) && DistinctFetchers(y)
    requires forall i, j :: 0 <= i < |x| && 0 <= j < |y| ==> x[i].fetcher != y[j].fetcher
    ensures DistinctFetchers(x + y)
  {
  }

  lemma PhasesDistinct(k: nat, cd: CharacterData, analyzeKills: bool)
    ensures DistinctFetchers(PhaseJobs(k, cd, analyzeKills))
  {
    if k == 0 {
      var z := if cd.zkillUsed then [Job(ZkillRecordFetch, cd.characterId)] else [];
      DistinctJoin([Job(CcpRecordFetch, cd.characterId)], z);
      DistinctJoin([Job(CcpRecordFetch, cd.characterId)] + z, [Job(CorpStartDateFetch, cd.characterId)]);
    } else if k == 1 {
      var a := if cd.zkillUsed then [Job(CorpDangerFetch, cd.corpId)] else [];
      var b := [Job(AllianceNameFetch, cd.allianceId), Job(CorporationNameFetch, cd.corpId)];
      var l := if cd.hasKillboard then [Job(LastKillActivityFetch, cd.characterId)] else [];
      var h := if analyzeKills && cd.kills != 0
               then [Job(KillHistoryFetch, cd.characterId), Job(RecentKillHistoryFetch, cd.characterId)]
               else [];
      DistinctJoin(a, b);
      DistinctJoin(a + b, l);
      DistinctJoin(a + b + l, h);
    }
  }

  /** Within a phase, two adjacent successful responses can be received in
      either order: the merged record and the error are the same. So for a
      phase whose responses all succeed, running the concurrent fetches one
      after the other is faithful; with a failure, the error reported and
      the record merged before it follow the order of receipt. */
  lemma PhaseOrderIrrelevant(acc: CharacterData, jobs: seq<Job>, rs: seq<Response>, i: nat)
    requires |rs| == |jobs| && DistinctFetchers(jobs)
    requires forall k :: 0 <= k < |rs| ==> Within(rs[k].record, jobs[k].fetcher)
    requires i + 1 < |rs| && rs[i].err.None? && rs[i + 1].err.None?
    ensures MergeAll(acc, rs[i := rs[i + 1]][i + 1 := rs[i]]) == MergeAll(acc, rs)
  {
    WithinDisjoint(rs[i].record, jobs[i].fetcher, rs[i + 1].record, jobs[i + 1].fetcher);
    MergeAllSwap(acc, rs, i);
  }

  /** A field set before a phase keeps its value through the phase. */
  lemma {:induction false} MergeAllKeepsSet(acc: CharacterData, rs: seq<Response>, f: Field)
    requires IsSet(acc, f)
    ensures IsSet(MergeAll(acc, rs).0, f) && Get(MergeAll(acc, rs).0, f) == Get(acc, f)
    decreases |rs|
  {
    if rs != [] && rs[0].err.None? {
      MergeKeepsSet(acc, rs[0].record, f);
      MergeAllKeepsSet(Merge(acc, rs[0].record), rs[1..], f);
    }
  }

  /** zkillUsed is set before phase 1 and the fill-empty merge cannot clear
      it, so the corporation danger is always fetched in phase 2. */
  lemma CorpDangerAlwaysScheduled(acc: CharacterData, rs: seq<Response>, analyzeKills: bool)
    requires acc.zkillUsed
    ensures var cd := MergeAll(acc, rs).0;
      Job(CorpDangerFetch, cd.corpId) in Phase2(cd, analyzeKills)
  {
    MergeAllKeepsSet(acc, rs, ZkillUsed);
    var cd := MergeAll(acc, rs).0;
    assert Phase2(cd, analyzeKills)[0] == Job(CorpDangerFetch, cd.corpId);
  }

  /** One fetch of a phase. */
  method RunJob(c: Caches, env: Env, job: Job) returns (r: Response)
    modifies c
    ensures Within(r.record, job.fetcher)
  {
    match job.fetcher {
      case CcpRecordFetch => r := FetchCcpRecord(c, env, job.arg);
      case ZkillRecordFetch => r := FetchZkillRecord(c, env, job.arg);
      case CorpStartDateFetch => r := FetchCorpStartDate(c, env, job.arg);
      case CorpDangerFetch => r := FetchCorpDanger(c, env, job.arg);
      case AllianceNameFetch => r := FetchAllianceName(c, env, job.arg);
      case CorporationNameFetch => r := FetchCorporationName(c, env, job.arg);
      case LastKillActivityFetch => r := KillAnalyzer.FetchLastKillActivity(c, env, job.arg);
      case KillHistoryFetch =>
        ghost var mails;
        r, mails := KillAnalyzer.FetchKillHistory(c, env, job.arg);
      case RecentKillHistoryFetch => r := KillAnalyzer.FetchRecentKillHistory(c, env, job.arg);
      case ItemNameFetch => r := FetchItemName(c, env, job.arg);
    }
  }

  /** One phase: every fetch runs, then handleMerges folds the responses
      (`rs`, in the order received) into the record. */
  method RunPhase(c: Caches, env: Env, cd: CharacterData, jobs: seq<Job>)
    returns (merged: CharacterData, err: Option<Error>, ghost rs: seq<Response>)
    modifies c
    ensures |rs| == |jobs|
    ensures forall k :: 0 <= k < |rs| ==> Within(rs[k].record, jobs[k].fetcher)
    ensures (merged, err) == MergeAll(cd, rs)
  {
    var received: seq<Response> := [];
    var i := 0;
    while i < |jobs|
      invariant 0 <= i <= |jobs| && |received| == i
      invariant forall k :: 0 <= k < i ==> Within(received[k].record, jobs[k].fetcher)
    {
      var r := RunJob(c, env, jobs[i]);
      received := received + [r];
      i := i + 1;
    }
    rs := received;
    merged, err := HandleMerges(cd, received);
  }

  /** The record fetchCharacterData starts the phases from. */
  function Initial(name: string, id: int): CharacterData {
    Empty().(name := name, characterId := id, zkillUsed := true)
  }

  /** The nickname override, keyed by the name that was asked for. */
  function Rename(cd: CharacterData, name: string): (r: CharacterData)
    ensures name in Nicknames ==> r.name == Nicknames[name]
    ensures name !in Nicknames ==> r == cd
    ensures r.(name := cd.name) == cd
  {
    if name in Nicknames then cd.(name := Nicknames[name]) else cd
  }

  /** Phase k ran from `before`: its fetches are the ones the record so
      far calls for, each response sets only the fields of its fetch, and
      `after` is the fold of the responses into `before`. */
  ghost predicate PhaseRun(k: nat, before: CharacterData, jobs: seq<Job>, rs: seq<Response>,
                           after: CharacterData, analyzeKills: bool) {
    && jobs == PhaseJobs(k, before, analyzeKills)
    && |rs| == |jobs|
    && (forall i :: 0 <= i < |rs| ==> Within(rs[i].record, jobs[i].fetcher))
    && after == MergeAll(before, rs).0
  }

  /** The phases in `plan` ran one after the other, each from the record
      the previous one left. */
  ghost predicate PhasesRun(stages: seq<CharacterData>, plan: seq<seq<Job>>,
                            responses: seq<seq<Response>>, analyzeKills: bool) {
    && |stages| == |plan| + 1 && |responses| == |plan|
    && (forall k :: 0 <= k < |plan| ==>
          PhaseRun(k, stages[k], plan[k], responses[k], stages[k + 1], analyzeKills))
  }

  lemma PhasesRunExtend(stages: seq<CharacterData>, plan: seq<seq<Job>>, responses: seq<seq<Response>>,
                        analyzeKills: bool, jobs: seq<Job>, rs: seq<Response>, after: CharacterData)
    requires PhasesRun(stages, plan, responses, analyzeKills)
    requires PhaseRun(|plan|, stages[|plan|], jobs, rs, after, analyzeKills)
    ensures PhasesRun(stages + [after], plan + [jobs], responses + [rs], analyzeKills)
  {
    var s2, p2, r2 := stages + [after], plan + [jobs], responses + [rs];
    forall k | 0 <= k < |p2|
      ensures PhaseRun(k, s2[k], p2[k], r2[k], s2[k + 1], analyzeKills)
    {
      if k < |plan| {
        assert s2[k] == stages[k] && s2[k + 1] == stages[k + 1] && p2[k] == plan[k] && r2[k] == responses[k];
      }
    }
  }

  /** fetchCharacterData. A name that does not resolve gives
      "'<name>' not found" (a failed type assertion on the cached id is a
      panic, which ends the call as well) and no phase runs. Otherwise
      `stages[k]` is the record before phase k and `plan[k]` the fetches of
      that phase; phase k merges its responses `responses[k]` into
      `stages[k]`, giving `stages[k + 1]`. The first phase that ends in an
      error ends the assembly with that error and the record merged so far.
      After the last phase the nickname, if any, is applied. */
  method FetchCharacterData(c: Caches, env: Env, name: string)
    returns (r: Response, ghost resolved: bool, ghost stages: seq<CharacterData>,
             ghost plan: seq<seq<Job>>, ghost responses: seq<seq<Response>>)
    modifies c
    ensures resolved <==> IdOutcome(old(c.ccp), |old(c.calls)|, env, name).Ok?
    ensures !resolved ==>
      var id := IdOutcome(old(c.ccp), |old(c.calls)|, env, name);
      && r.record == Empty().(name := name) && plan == []
      && r.err == Some(if id.error == TypeAssertion(name) then id.error else NotFound(name))
      && c.calls == (if name in old(c.ccp) then old(c.calls) else old(c.calls) + [UniverseIds([name])])
      && c.ccp == old(c.ccp) && c.zkill == old(c.zkill)
      && c.killmails == old(c.killmails) && c.inflight == old(c.inflight)
    ensures resolved ==>
      && 1 <= |plan| <= 3
      && PhasesRun(stages, plan, responses, env.analyzeKills)
      && stages[0] == Initial(name, IdOutcome(old(c.ccp), |old(c.calls)|, env, name).value)
      && (forall k :: 0 <= k < |plan| - 1 ==> MergeAll(stages[k], responses[k]).1.None?)
      && MergeAll(stages[|plan| - 1], responses[|plan| - 1]).1 == r.err
      && (r.err.None? ==> |plan| == 3 && r.record == Rename(stages[3], name))
      && (r.err.Some? ==> r.record == stages[|plan|])
  {
    resolved, stages, plan, responses := false, [], [], [];
    var id := FetchCharacterId(c, env, name);
    if id.Err? {
      var err := if id.error == TypeAssertion(name) then id.error else NotFound(name);
      return Response(Empty().(name := name), Some(err)), resolved, stages, plan, responses;
    }
    resolved := true;
    r, stages, plan, responses := RunPhases(c, env, Initial(name, id.value), name);
  }

  /** The three phases of fetchCharacterData from the record `start`. */
  method RunPhases(c: Caches, env: Env, start: CharacterData, name: string)
    returns (r: Response, ghost stages: seq<CharacterData>, ghost plan: seq<seq<Job>>,
             ghost responses: seq<seq<Response>>)
    modifies c
    ensures 1 <= |plan| <= 3
    ensures PhasesRun(stages, plan, responses, env.analyzeKills) && stages[0] == start
    ensures forall k :: 0 <= k < |plan| - 1 ==> MergeAll(stages[k], responses[k]).1.None?
    ensures MergeAll(stages[|plan| - 1], responses[|plan| - 1]).1 == r.err
    ensures r.err.None? ==> |plan| == 3 && r.record == Rename(stages[3], name)
    ensures r.err.Some? ==> r.record == stages[|plan|]
  {
    var cd := start;
    stages, plan, responses := [cd], [], [];
    var k := 0;
    while k < 3
      invariant 0 <= k <= 3 && |plan| == k && |stages| == k + 1 && stages[k] == cd
      invariant stages[0] == start
      invariant PhasesRun(stages, plan, responses, env.analyzeKills)
      invariant forall j :: 0 <= j < k ==> MergeAll(stages[j], responses[j]).1.None?
    {
      var jobs := PhaseJobs(k, cd, env.analyzeKills);
      var merged, err, rs := RunPhase(c, env, cd, jobs);
      PhasesRunExtend(stages, plan, responses, env.analyzeKills, jobs, rs, merged);
      plan, stages, responses := plan + [jobs], stages + [merged], responses + [rs];
      cd := merged;
      if err.Some? {
        return Response(cd, err), stages, plan, responses;
      }
      k := k + 1;
    }
    r := Response(Rename(cd, name), None);
  }

  /** The nickname table in use: "Mynxee" is shown as "Space Mom". */
  lemma NicknameExample(cd: CharacterData)
    ensures Rename(cd, "Mynxee").name == "Space Mom"
    ensures Rename(cd, "Portia Tigana").name == "Tiggs"
    ensures Rename(cd, "Someone Else") == cd
  {
  }
}
