/** The process-wide caches and the request log. The program keeps three
    caches of dynamically typed values (ccpCache and zkillCache in
    character.go, killmailCache in kill_analyzer.go) and the map of
    killmail fetches in flight. Entries are set either with the default
    time to live or with no expiry; the passage of time is `Expire`. */
module Store {
  import opened Results
  import opened Upstream

  /** What the caches of character.go hold: strings (raw JSON and names)
      and ints (character ids and corporation danger ratios). */
  datatype CacheVal = Text(text: string) | Number(number: int)

  /** A cached value, and whether it goes away when its time to live ends. */
  datatype Entry<T> = Entry(value: T, expires: bool)

  /** The entries of `m` that were set with no expiry. */
  function Permanent<T>(m: map<string, Entry<T>>): (r: map<string, Entry<T>>)
    ensures forall k :: k in r <==> k in m && !m[k].expires
    ensures forall k :: k in r ==> r[k] == m[k]
  {
    map k | k in m && !m[k].expires :: m[k]
  }

  /** `v.(string)`: the text, or the panic of a failed type assertion. */
  function AsText(key: string, v: CacheVal): (r: Result<string>)
    ensures r.Ok? <==> v.Text?
    ensures r.Ok? ==> r.value == v.text
    ensures r.Err? ==> r.error == TypeAssertion(key)
  {
    match v
    case Text(s) => Ok(s)
    case Number(_) => Err(TypeAssertion(key))
  }

  /** `v.(int)`: the number, or the panic of a failed type assertion. */
  function AsNumber(key: string, v: CacheVal): (r: Result<int>)
    ensures r.Ok? <==> v.Number?
    ensures r.Ok? ==> r.value == v.number
    ensures r.Err? ==> r.error == TypeAssertion(key)
  {
    match v
    case Number(n) => Ok(n)
    case Text(_) => Err(TypeAssertion(key))
  }

  class Caches {
    var ccp: map<string, Entry<CacheVal>>
    var zkill: map<string, Entry<CacheVal>>
    var killmails: map<string, Entry<KillMail>>
    /** Killmail keys whose fetch is in flight, with the record the leading
        fetch publishes for the callers that joined it. */
    var inflight: map<string, KillMail>
    /** Every upstream request made so far, in order. */
    var calls: seq<Endpoint>

    constructor()
      ensures ccp == map[] && zkill == map[] && killmails == map[]
      ensures inflight == map[] && calls == []
    {
      ccp := map[];
      zkill := map[];
      killmails := map[];
      inflight := map[];
      calls := [];
    }

    /** One upstream request: it is logged and answered by the network. */
    method Fetch(net: Network, e: Endpoint) returns (r: Result<string>)
      modifies this
      ensures calls == old(calls) + [e]
      ensures r == net(|old(calls)|, e)
      ensures ccp == old(ccp) && zkill == old(zkill) && killmails == old(killmails)
      ensures inflight == old(inflight)
    {
      r := net(|calls|, e);
      calls := calls + [e];
    }

    /** The time to live of every expiring entry runs out; entries set with
        no expiry stay. */
    method Expire()
      modifies this
      ensures ccp == Permanent(old(ccp)) && zkill == Permanent(old(zkill))
      ensures killmails == Permanent(old(killmails))
      ensures inflight == old(inflight) && calls == old(calls)
    {
      ccp := Permanent(ccp);
      zkill := Permanent(zkill);
      killmails := Permanent(killmails);
    }
  }
}
