/** The two upstream services as the model sees them: the requests the
    program makes (ESI, the game's API, and zKillboard), the records it
    decodes from their answers, and the oracles that stand for the network,
    the JSON decoder and the wall clock. */
module Upstream {
  import opened Results

  /** One upstream request, named by what it asks for. */
  datatype Endpoint =
    // character.go and kill_analyzer.go
    | UniverseIds(names: seq<string>)        // POST universe/ids/
    | CharacterRecord(id: int)               // GET characters/<id>/
    | CharacterStats(id: int)                // zKillboard stats/characterID/<id>/
    | CorporationHistory(id: int)            // GET characters/<id>/corporationhistory
    | Corporation(id: int)                   // GET corporations/<id>/
    | Alliance(id: int)                      // GET alliances/<id>/
    | UniverseNames(ids: seq<int>)           // POST universe/names/
    | CorporationStats(id: int)              // zKillboard stats/corporationID/<id>/
    | CharacterActivity(id: int)             // zKillboard characterID/<id>/
    | CharacterKills(id: int)                // zKillboard kills/characterID/<id>/
    | RecentKills(id: int, seconds: int)     // zKillboard kills/characterID/<id>/pastSeconds/<s>/
    | Killmail(id: int, hash: string)        // GET killmails/<id>/<hash>/
    // character/character.go (legacy)
    | Search(name: string)                   // GET search/?categories=character&search=<name>&strict=true
    | CorporationNames(id: int)              // GET corporations/names/?corporation_ids=<id>
    | AllianceNames(id: int)                 // GET alliances/names/?alliance_ids=<id>
    | LastKill(id: int)                      // zKillboard api/characterID/<id>/limit/1/

  /** The network: the body of the answer to the n-th request of the
      process, or why there is none (a status other than 200, or a
      transport failure). Indexing by n lets two identical requests get
      different answers. */
  type Network = (nat, Endpoint) -> Result<string>

  /** ccpResponse: the fields of a character record the program uses. */
  datatype CcpRecord = CcpRecord(corporationId: int, allianceId: int, security: real, birthday: string)

  /** zKillResponse: a character's or a corporation's zKillboard totals. */
  datatype ZkillStats = ZkillStats(danger: int, gang: int, kills: int, losses: int)

  /** idEntry: one resolved name. */
  datatype IdEntry = IdEntry(id: int, name: string)

  /** zKillCharInfo: a victim or an attacker of a kill. */
  datatype CharInfo = CharInfo(characterId: int, corporationId: int, allianceId: int, shipTypeId: int)

  /** killMail: when a kill happened, who died and who shot. */
  datatype KillMail = KillMail(time: string, victim: CharInfo, attackers: seq<CharInfo>)

  /** The zero killMail, which a failed fetch hands back. */
  function ZeroKillMail(): KillMail {
    KillMail("", CharInfo(0, 0, 0, 0), [])
  }

  /** zKillMail: a reference to a kill, resolved against ESI by id and hash. */
  datatype KillRef = KillRef(id: int, hash: string)

  /** The legacy last-kill entry: the victim's id and the kill's time stamp. */
  datatype LegacyKill = LegacyKill(victimId: int, time: string)

  /** JSON decoding of each kind of answer: None when the body does not
      decode. `killMail` is the decoder's partial result, whatever it filled
      in before it stopped, because that is what the caller keeps. */
  datatype Codec = Codec(
    ids: string -> Option<seq<IdEntry>>,       // characterList
    ccp: string -> Option<CcpRecord>,
    zkill: string -> Option<ZkillStats>,
    startDates: string -> Option<seq<string>>, // corporation history
    name: string -> Option<string>,            // {"name": ...} of a corporation or alliance
    typeNames: string -> Option<seq<string>>,  // universe/names entries, names only
    refs: string -> Option<seq<KillRef>>,
    killMail: string -> KillMail,
    weekCount: string -> Option<nat>,          // element count of the week's kill array
    search: string -> Option<seq<int>>,        // legacy search hits
    legacyNames: string -> Option<seq<string>>,// legacy corporation/alliance names
    lastKills: string -> Option<seq<LegacyKill>>)

  /** Everything outside the program that a fetch depends on: the network,
      the decoder, the clock (seconds since a time stamp, already truncated
      to whole seconds) and the two command-line switches. */
  datatype Env = Env(
    net: Network,
    codec: Codec,
    secondsSince: string -> int,
    analyzeKills: bool,
    computeFavoriteShip: bool)
}
