/** The character record sent to the browser and the fill-empty merge that
    assembles it from the partial records of the individual fetches. */
module Profile {
  import opened Results

  /** One character as reported to the page. `security` is a 32-bit float
      upstream; it is carried as a real and never computed with. */
  datatype CharacterData = CharacterData(
    name: string,
    characterId: int,
    security: real,
    age: string,
    danger: int,
    gang: int,
    kills: int,
    losses: int,
    hasKillboard: bool,
    lastKill: string,
    corpName: string,
    corpId: int,
    corpAge: string,
    isNpcCorp: bool,
    corpDanger: int,
    allianceId: int,
    allianceName: string,
    recentExplorerTotal: int,
    recentKillTotal: int,
    lastKillTime: string,
    killsLastWeek: int,
    favoriteShipId: int,
    favoriteShipCount: int,
    favoriteShipName: string,
    zkillUsed: bool,
    analyzeKills: bool)

  /** The record with every field at its zero value. */
  function Empty(): CharacterData {
    CharacterData("", 0, 0.0, "", 0, 0, 0, 0, false, "", "", 0, "", false, 0, 0, "",
                  0, 0, "", 0, 0, 0, "", false, false)
  }

  /** The names of the fields, so that properties can speak of all of them. */
  datatype Field =
    | Name | CharacterId | Security | Age | Danger | Gang | Kills | Losses
    | HasKillboard | LastKill | CorpName | CorpId | CorpAge | IsNpcCorp
    | CorpDanger | AllianceId | AllianceName | RecentExplorerTotal
    | RecentKillTotal | LastKillTime | KillsLastWeek | FavoriteShipId
    | FavoriteShipCount | FavoriteShipName | ZkillUsed | AnalyzeKills

  datatype Value = IntValue(i: int) | TextValue(s: string) | BoolValue(b: bool) | RealValue(r: real)

  predicate IsZero(v: Value) {
    match v
    case IntValue(i) => i == 0
    case TextValue(s) => s == ""
    case BoolValue(b) => !b
    case RealValue(r) => r == 0.0
  }

  /** The value of field `f` of `cd`. */
  function Get(cd: CharacterData, f: Field): Value {
    match f
    case Name => TextValue(cd.name)
    case CharacterId => IntValue(cd.characterId)
    case Security => RealValue(cd.security)
    case Age => TextValue(cd.age)
    case Danger => IntValue(cd.danger)
    case Gang => IntValue(cd.gang)
    case Kills => IntValue(cd.kills)
    case Losses => IntValue(cd.losses)
    case HasKillboard => BoolValue(cd.hasKillboard)
    case LastKill => TextValue(cd.lastKill)
    case CorpName => TextValue(cd.corpName)
    case CorpId => IntValue(cd.corpId)
    case CorpAge => TextValue(cd.corpAge)
    case IsNpcCorp => BoolValue(cd.isNpcCorp)
    case CorpDanger => IntValue(cd.corpDanger)
    case AllianceId => IntValue(cd.allianceId)
    case AllianceName => TextValue(cd.allianceName)
    case RecentExplorerTotal => IntValue(cd.recentExplorerTotal)
    case RecentKillTotal => IntValue(cd.recentKillTotal)
    case LastKillTime => TextValue(cd.lastKillTime)
    case KillsLastWeek => IntValue(cd.killsLastWeek)
    case FavoriteShipId => IntValue(cd.favoriteShipId)
    case FavoriteShipCount => IntValue(cd.favoriteShipCount)
    case FavoriteShipName => TextValue(cd.favoriteShipName)
    case ZkillUsed => BoolValue(cd.zkillUsed)
    case AnalyzeKills => BoolValue(cd.analyzeKills)
  }

  /** Field `f` of `cd` holds a non-zero value. */
  predicate IsSet(cd: CharacterData, f: Field) {
    !IsZero(Get(cd, f))
  }

  /** Two records that agree on every field are equal. */
  lemma Extensionality(a: CharacterData, b: CharacterData)
    requires forall f: Field :: Get(a, f) == Get(b, f)
    ensures a == b
  {
    SameFields1(a, b);
    SameFields2(a, b);
    SameFields3(a, b);
    SameFields4(a, b);
  }

  lemma SameFields1(a: CharacterData, b: CharacterData)
    requires forall f: Field :: Get(a, f) == Get(b, f)
    ensures a.name == b.name && a.characterId == b.characterId && a.security == b.security && a.age == b.age && a.danger == b.danger && a.gang == b.gang && a.kills == b.kills
  {
    assert Get(a, Name) == Get(b, Name);
    assert Get(a, CharacterId) == Get(b, CharacterId);
    assert Get(a, Security) == Get(b, Security);
    assert Get(a, Age) == Get(b, Age);
    assert Get(a, Danger) == Get(b, Danger);
    assert Get(a, Gang) == Get(b, Gang);
    assert Get(a, Kills) == Get(b, Kills);
  }

  lemma SameFields2(a: CharacterData, b: CharacterData)
    requires forall f: Field :: Get(a, f) == Get(b, f)
    ensures a.losses == b.losses && a.hasKillboard == b.hasKillboard && a.lastKill == b.lastKill && a.corpName == b.corpName && a.corpId == b.corpId && a.corpAge == b.corpAge && a.isNpcCorp == b.isNpcCorp
  {
    assert Get(a, Losses) == Get(b, Losses);
    assert Get(a, HasKillboard) == Get(b, HasKillboard);
    assert Get(a, LastKill) == Get(b, LastKill);
    assert Get(a, CorpName) == Get(b, CorpName);
    assert Get(a, CorpId) == Get(b, CorpId);
    assert Get(a, CorpAge) == Get(b, CorpAge);
    assert Get(a, IsNpcCorp) == Get(b, IsNpcCorp);
  }

  lemma SameFields3(a: CharacterData, b: CharacterData)
    requires forall f: Field :: Get(a, f) == Get(b, f)
    ensures a.corpDanger == b.corpDanger && a.allianceId == b.allianceId && a.allianceName == b.allianceName && a.recentExplorerTotal == b.recentExplorerTotal && a.recentKillTotal == b.recentKillTotal && a.lastKillTime == b.lastKillTime && a.killsLastWeek == b.killsLastWeek
  {
    assert Get(a, CorpDanger) == Get(b, CorpDanger);
    assert Get(a, AllianceId) == Get(b, AllianceId);
    assert Get(a, AllianceName) == Get(b, AllianceName);
    assert Get(a, RecentExplorerTotal) == Get(b, RecentExplorerTotal);
    assert Get(a, RecentKillTotal) == Get(b, RecentKillTotal);
    assert Get(a, LastKillTime) == Get(b, LastKillTime);
    assert Get(a, KillsLastWeek) == Get(b, KillsLastWeek);
  }

  lemma SameFields4(a: CharacterData, b: CharacterData)
    requires forall f: Field :: Get(a, f) == Get(b, f)
    ensures a.favoriteShipId == b.favoriteShipId && a.favoriteShipCount == b.favoriteShipCount && a.favoriteShipName == b.favoriteShipName && a.zkillUsed == b.zkillUsed && a.analyzeKills == b.analyzeKills
  {
    assert Get(a, FavoriteShipId) == Get(b, FavoriteShipId);
    assert Get(a, FavoriteShipCount) == Get(b, FavoriteShipCount);
    assert Get(a, FavoriteShipName) == Get(b, FavoriteShipName);
    assert Get(a, ZkillUsed) == Get(b, ZkillUsed);
    assert Get(a, AnalyzeKills) == Get(b, AnalyzeKills);
  }

  function FillInt(d: int, s: int): int { if d == 0 then s else d }
  function FillText(d: string, s: string): string { if d == "" then s else d }
  function FillBool(d: bool, s: bool): bool { if !d then s else d }
  function FillReal(d: real, s: real): real { if d == 0.0 then s else d }

  /** mergo.Merge without override: each field of `dst` that still holds its
      zero value takes the value of `src`; every other field is kept. */
  function Merge(dst: CharacterData, src: CharacterData): (r: CharacterData) {
    CharacterData(
      FillText(dst.name, src.name),
      FillInt(dst.characterId, src.characterId),
      FillReal(dst.security, src.security),
      FillText(dst.age, src.age),
      FillInt(dst.danger, src.danger),
      FillInt(dst.gang, src.gang),
      FillInt(dst.kills, src.kills),
      FillInt(dst.losses, src.losses),
      FillBool(dst.hasKillboard, src.hasKillboard),
      FillText(dst.lastKill, src.lastKill),
      FillText(dst.corpName, src.corpName),
      FillInt(dst.corpId, src.corpId),
      FillText(dst.corpAge, src.corpAge),
      FillBool(dst.isNpcCorp, src.isNpcCorp),
      FillInt(dst.corpDanger, src.corpDanger),
      FillInt(dst.allianceId, src.allianceId),
      FillText(dst.allianceName, src.allianceName),
      FillInt(dst.recentExplorerTotal, src.recentExplorerTotal),
      FillInt(dst.recentKillTotal, src.recentKillTotal),
      FillText(dst.lastKillTime, src.lastKillTime),
      FillInt(dst.killsLastWeek, src.killsLastWeek),
      FillInt(dst.favoriteShipId, src.favoriteShipId),
      FillInt(dst.favoriteShipCount, src.favoriteShipCount),
      FillText(dst.favoriteShipName, src.favoriteShipName),
      FillBool(dst.zkillUsed, src.zkillUsed),
      FillBool(dst.analyzeKills, src.analyzeKills))
  }

  /** The merge field by field: a set field of the destination is kept, an
      unset one takes the source's value. */
  lemma MergeField(dst: CharacterData, src: CharacterData, f: Field)
    ensures Get(Merge(dst, src), f) == if IsSet(dst, f) then Get(dst, f) else Get(src, f)
  {
  }

  /** The empty record is a neutral element on either side. */
  lemma MergeEmpty(cd: CharacterData)
    ensures Merge(Empty(), cd) == cd && Merge(cd, Empty()) == cd
  {
  }

  /** Merging is associative, so the merges of one phase can be grouped
      freely. */
  lemma MergeAssociative(a: CharacterData, b: CharacterData, c: CharacterData)
    ensures Merge(Merge(a, b), c) == Merge(a, Merge(b, c))
  {
  }

  /** Merging the same response twice gives the record of merging it once. */
  lemma MergeIdempotent(a: CharacterData, b: CharacterData)
    ensures Merge(Merge(a, b), b) == Merge(a, b)
  {
  }

  /** No field is set in both records. */
  predicate Disjoint(a: CharacterData, b: CharacterData) {
    forall f: Field :: !(IsSet(a, f) && IsSet(b, f))
  }

  lemma MergeCommutesField(acc: CharacterData, a: CharacterData, b: CharacterData, f: Field)
    requires !(IsSet(a, f) && IsSet(b, f))
    ensures Get(Merge(Merge(acc, a), b), f) == Get(Merge(Merge(acc, b), a), f)
  {
    MergeField(acc, a, f);
    MergeField(Merge(acc, a), b, f);
    MergeField(acc, b, f);
    MergeField(Merge(acc, b), a, f);
    if !IsSet(acc, f) && !IsSet(a, f) && !IsSet(b, f) {
      match f
      case _ =>
    }
  }

  /** Responses that set disjoint fields can be merged in either order: the
      order in which concurrent fetches finish does not matter for them. */
  lemma MergeCommutes(acc: CharacterData, a: CharacterData, b: CharacterData)
    requires Disjoint(a, b)
    ensures Merge(Merge(acc, a), b) == Merge(Merge(acc, b), a)
  {
    forall f: Field
      ensures Get(Merge(Merge(acc, a), b), f) == Get(Merge(Merge(acc, b), a), f)
    {
      MergeCommutesField(acc, a, b, f);
    }
    Extensionality(Merge(Merge(acc, a), b), Merge(Merge(acc, b), a));
  }

  /** A field set in the accumulator is never changed by a merge; in
      particular `zkillUsed`, once true, stays true. */
  lemma MergeKeepsSet(acc: CharacterData, src: CharacterData, f: Field)
    requires IsSet(acc, f)
    ensures IsSet(Merge(acc, src), f) && Get(Merge(acc, src), f) == Get(acc, f)
  {
    MergeField(acc, src, f);
  }

  /** A fetch's partial record together with its error, if any. */
  datatype Response = Response(record: CharacterData, err: Option<Error>)

  /** handleMerges, as a specification: responses are merged in receipt
      order until the first one that carries an error, whose error is the
      result; the responses after it are not merged. */
  function MergeAll(acc: CharacterData, rs: seq<Response>): (CharacterData, Option<Error>)
    decreases |rs|
  {
    if rs == [] then (acc, None)
    else if rs[0].err.Some? then (acc, rs[0].err)
    else MergeAll(Merge(acc, rs[0].record), rs[1..])
  }

  /** The fill-empty merge of the records of a sequence of responses. */
  function Combine(rs: seq<Response>): CharacterData
    decreases |rs|
  {
    if rs == [] then Empty() else Merge(rs[0].record, Combine(rs[1..]))
  }

  /** Index of the first response that carries an error, or |rs|. */
  function FirstError(rs: seq<Response>): (k: nat)
    ensures k <= |rs|
    ensures forall i :: 0 <= i < k ==> rs[i].err.None?
    ensures k < |rs| ==> rs[k].err.Some?
    decreases |rs|
  {
    if rs == [] || rs[0].err.Some? then 0 else 1 + FirstError(rs[1..])
  }

  /** What handleMerges leaves behind: the accumulator merged with the
      responses before the first error, and that error. */
  lemma {:induction false} MergeAllMeaning(acc: CharacterData, rs: seq<Response>)
    ensures var k := FirstError(rs);
      MergeAll(acc, rs) == (Merge(acc, Combine(rs[..k])), if k < |rs| then rs[k].err else None)
    decreases |rs|
  {
    var k := FirstError(rs);
    if rs == [] || rs[0].err.Some? {
      MergeEmpty(acc);
    } else {
      MergeAllMeaning(Merge(acc, rs[0].record), rs[1..]);
      assert rs[..k][1..] == rs[1..][..k - 1];
      MergeAssociative(acc, rs[0].record, Combine(rs[1..][..k - 1]));
    }
  }

  /** handleMerges: the loop over the responses of one phase. */
  method HandleMerges(cd: CharacterData, rs: seq<Response>) returns (merged: CharacterData, err: Option<Error>)
    ensures (merged, err) == MergeAll(cd, rs)
  {
    merged := cd;
    var i := 0;
    while i < |rs|
      invariant 0 <= i <= |rs|
      invariant MergeAll(cd, rs) == MergeAll(merged, rs[i..])
    {
      assert rs[i..][1..] == rs[i + 1..];
      if rs[i].err.Some? {
        return merged, rs[i].err;
      }
      merged := Merge(merged, rs[i].record);
      i := i + 1;
    }
    return merged, None;
  }

  /** Swapping two adjacent responses that succeed and set disjoint fields
      does not change what handleMerges produces. */
  lemma {:induction false} MergeAllSwap(acc: CharacterData, rs: seq<Response>, i: nat)
    requires i + 1 < |rs|
    requires rs[i].err.None? && rs[i + 1].err.None? && Disjoint(rs[i].record, rs[i + 1].record)
    ensures MergeAll(acc, rs[i := rs[i + 1]][i + 1 := rs[i]]) == MergeAll(acc, rs)
    decreases i
  {
    var swapped := rs[i := rs[i + 1]][i + 1 := rs[i]];
    if i == 0 {
      assert swapped[2..] == rs[2..];
      assert swapped[1..][1..] == swapped[2..] && rs[1..][1..] == rs[2..];
      MergeCommutes(acc, rs[0].record, rs[1].record);
    } else if rs[0].err.None? {
      assert swapped[0] == rs[0];
      assert swapped[1..] == rs[1..][i - 1 := rs[i + 1]][i := rs[i]];
      MergeAllSwap(Merge(acc, rs[0].record), rs[1..], i - 1);
    } else {
      assert swapped[0] == rs[0];
    }
  }

  /** The fetches of fetchCharacterData; each fills its own fields. */
  datatype Fetcher =
    | CcpRecordFetch | ZkillRecordFetch | CorpStartDateFetch | CorpDangerFetch
    | AllianceNameFetch | CorporationNameFetch | LastKillActivityFetch
    | KillHistoryFetch | RecentKillHistoryFetch | ItemNameFetch

  /** The fetch that fills field `f`; None for the fields that
      fetchCharacterData sets itself or never sets. */
  function Owner(f: Field): Option<Fetcher> {
    match f
    case Name | CharacterId | AnalyzeKills => None
    case Security | Age | CorpId | IsNpcCorp | AllianceId => Some(CcpRecordFetch)
    case Danger | Gang | Kills | Losses | HasKillboard | ZkillUsed => Some(ZkillRecordFetch)
    case CorpAge => Some(CorpStartDateFetch)
    case CorpDanger => Some(CorpDangerFetch)
    case AllianceName => Some(AllianceNameFetch)
    case CorpName => Some(CorporationNameFetch)
    case LastKill => Some(LastKillActivityFetch)
    case RecentExplorerTotal | RecentKillTotal | LastKillTime | FavoriteShipId | FavoriteShipCount =>
      Some(KillHistoryFetch)
    case KillsLastWeek => Some(RecentKillHistoryFetch)
    case FavoriteShipName => Some(ItemNameFetch)
  }

  /** `cd` sets no field that fetch `p` does not own. */
  predicate Within(cd: CharacterData, p: Fetcher) {
    forall f: Field :: IsSet(cd, f) ==> Owner(f) == Some(p)
  }

  /** The partial records of two different fetches never set the same field,
      so they can be merged in either order (see MergeCommutes). */
  lemma WithinDisjoint(a: CharacterData, p: Fetcher, b: CharacterData, q: Fetcher)
    requires p != q && Within(a, p) && Within(b, q)
    ensures Disjoint(a, b)
  {
  }

  /** A field that no fetch owns keeps the accumulator's value through a
      phase whose responses stay within their fetches. */
  lemma {:induction false} MergeAllKeepsUnowned(acc: CharacterData, rs: seq<Response>, ps: seq<Fetcher>, f: Field)
    requires |rs| == |ps| && Owner(f) == None
    requires forall i :: 0 <= i < |rs| ==> Within(rs[i].record, ps[i])
    ensures Get(MergeAll(acc, rs).0, f) == Get(acc, f)
    decreases |rs|
  {
    if rs != [] && rs[0].err.None? {
      MergeField(acc, rs[0].record, f);
      assert !IsSet(rs[0].record, f);
      MergeAllKeepsUnowned(Merge(acc, rs[0].record), rs[1..], ps[1..], f);
    }
  }
}
