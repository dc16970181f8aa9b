/**
 * The client of the Hysteria2 traffic-statistics API (hysteria2_api.py): the
 * base URL it keeps, the request each call makes, and how the `/traffic` and
 * `/online` answers are normalised. The HTTP round trip itself is an input:
 * each call is handed the outcome of its request.
 */
module Hysteria2Api {
  import opened Wrappers
  import opened Text
  import opened Json

  /** What a request came back with. */
  datatype HttpOutcome =
    | Raised                                       // connection error or timeout
    | Answered(status: int, body: Option<Json>)    // `body` is None when it is not JSON

  datatype Request = Request(url: string, headers: map<string, string>, params: map<string, string>)

  /** One user's traffic: the API's `tx` and `rx`, whatever JSON they hold. */
  datatype Traffic = Traffic(uploadBytes: Json, downloadBytes: Json)

  /** One user's presence. */
  datatype Presence = Presence(isOnline: bool, connections: Json)

  /** The base URL without its trailing slashes. */
  function BaseUrl(url: string): (b: string)
    ensures b == [] || b[|b| - 1] != '/'
    ensures StartsWith(url, b) && forall i :: |b| <= i < |url| ==> url[i] == '/'
  {
    RStripChar(url, '/')
  }

  /** Any number of trailing slashes gives the same base URL. */
  lemma {:induction false} TrailingSlashes(url: string, n: nat)
    ensures BaseUrl(url + seq(n, _ => '/')) == BaseUrl(url)
    decreases n
  {
    if n > 0 {
      var s := url + seq(n, _ => '/');
      assert s[|s| - 1] == '/';
      assert s[..|s| - 1] == url + seq(n - 1, _ => '/');
      TrailingSlashes(url, n - 1);
    } else {
      assert url + seq(0, _ => '/') == url;
    }
  }

  /** The query of `get_traffic_stats`. */
  function TrafficParams(clear: bool): (p: map<string, string>)
    ensures clear ==> p == map["clear" := "1"]
    ensures !clear ==> p == map[]
  {
    if clear then map["clear" := "1"] else map[]
  }

  /** One user's `/traffic` entry; `.get` on an entry that is not a dict raises. */
  function TrafficOf(stats: Json): (r: Option<Traffic>)
    ensures r.Some? <==> stats.JObj?
    ensures r.Some? && "tx" in stats.fields ==> r.value.uploadBytes == stats.fields["tx"]
    ensures r.Some? && "tx" !in stats.fields ==> r.value.uploadBytes == JInt(0)
    ensures r.Some? && "rx" in stats.fields ==> r.value.downloadBytes == stats.fields["rx"]
    ensures r.Some? && "rx" !in stats.fields ==> r.value.downloadBytes == JInt(0)
  {
    match stats
    case JObj(m) => Some(Traffic(Get(m, "tx", JInt(0)), Get(m, "rx", JInt(0))))
    case _ => None
  }

  /** Every entry of an answer is a dict. */
  predicate AllObjects(data: map<string, Json>) {
    forall u :: u in data ==> data[u].JObj?
  }

  /**
   * `get_traffic_stats` after the request: None for a raised request, a body
   * that is not JSON or not a dict, or an entry that is not a dict; `{}` for a
   * status other than 200.
   */
  function TrafficResult(resp: HttpOutcome): (r: Option<map<string, Traffic>>)
    ensures r.None? <==>
      || resp.Raised?
      || (resp.status == 200 && (resp.body.None? || !resp.body.value.JObj? || !AllObjects(resp.body.value.fields)))
    ensures resp.Answered? && resp.status != 200 ==> r == Some(map[])
    ensures r.Some? && resp.status == 200 ==>
      && r.value.Keys == resp.body.value.fields.Keys
      && forall u :: u in r.value ==> TrafficOf(resp.body.value.fields[u]) == Some(r.value[u])
  {
    match resp
    case Raised => None
    case Answered(status, body) =>
      if status != 200 then Some(map[])
      else if body.None? || !body.value.JObj? then None
      else
        var data := body.value.fields;
        if AllObjects(data) then Some(map u | u in data :: TrafficOf(data[u]).value) else None
  }

  /**
   * One user's `/online` entry. A list is the connections, online when not
   * empty; an int (a bool is one) is a count, online when positive; any
   * other value is online when truthy, with no connections.
   */
  function PresenceOf(conns: Json): (p: Presence)
    ensures conns.JArr? ==> p == Presence(conns.items != [], conns)
    ensures conns.JInt? ==> p == Presence(conns.i > 0, conns)
    ensures conns.JBool? ==> p == Presence(conns.b, conns)
    ensures !conns.JArr? && !conns.JInt? && !conns.JBool? ==> p == Presence(Truthy(conns), JArr([]))
    // online means truthy, and only a negative count is truthy but offline
    ensures p.isOnline ==> Truthy(conns)
    ensures Truthy(conns) && !p.isOnline ==> conns.JInt? && conns.i < 0
    ensures p.connections == conns || p.connections == JArr([])
  {
    match conns
    case JArr(items) => Presence(|items| > 0, conns)
    case JInt(i) => Presence(i > 0, conns)
    case JBool(b) => Presence(b, conns)
    case _ => Presence(Truthy(conns), JArr([]))
  }

  /** `get_online_clients` after the request. */
  function OnlineResult(resp: HttpOutcome): (r: Option<map<string, Presence>>)
    ensures r.None? <==> resp.Raised? || (resp.status == 200 && (resp.body.None? || !resp.body.value.JObj?))
    ensures resp.Answered? && resp.status != 200 ==> r == Some(map[])
    ensures r.Some? && resp.status == 200 ==>
      && r.value.Keys == resp.body.value.fields.Keys
      && forall u :: u in r.value ==> r.value[u] == PresenceOf(resp.body.value.fields[u])
  {
    match resp
    case Raised => None
    case Answered(status, body) =>
      if status != 200 then Some(map[])
      else if body.None? || !body.value.JObj? then None
      else
        var data := body.value.fields;
        Some(map u | u in data :: PresenceOf(data[u]))
  }

  class Hysteria2Client {
    const baseUrl: string
    const secret: string
    const headers: map<string, string>

    constructor (baseUrl: string, secret: string)
      ensures this.baseUrl == BaseUrl(baseUrl)
      ensures this.secret == secret
      ensures headers == map["Authorization" := secret]
    {
      this.baseUrl := BaseUrl(baseUrl);
      this.secret := secret;
      headers := map["Authorization" := secret];
    }

    /** `get_traffic_stats`: the request it makes and what it returns for the answer. */
    method GetTrafficStats(clear: bool, resp: HttpOutcome) returns (request: Request, r: Option<map<string, Traffic>>)
      ensures request == Request(baseUrl + "/traffic", headers, TrafficParams(clear))
      ensures r == TrafficResult(resp)
    {
      request := Request(baseUrl + "/traffic", headers, if clear then map["clear" := "1"] else map[]);
      if resp.Raised? {
        return request, None;
      }
      if resp.status != 200 {
        return request, Some(map[]);
      }
      if resp.body.None? || !resp.body.value.JObj? {
        return request, None;
      }
      var data := resp.body.value.fields;
      var result: map<string, Traffic> := map[];
      var todo := data.Keys;
      while todo != {}
        invariant todo <= data.Keys
        invariant result.Keys == data.Keys - todo
        invariant forall u :: u in result ==> data[u].JObj? && TrafficOf(data[u]) == Some(result[u])
        decreases todo
      {
        var user :| user in todo;
        var stats := data[user];
        if !stats.JObj? {
          return request, None;
        }
        result := result[user := Traffic(Get(stats.fields, "tx", JInt(0)), Get(stats.fields, "rx", JInt(0)))];
        todo := todo - {user};
      }
      assert result == map u | u in data :: TrafficOf(data[u]).value;
      return request, Some(result);
    }

    /** `get_online_clients`: the request it makes and what it returns for the answer. */
    method GetOnlineClients(resp: HttpOutcome) returns (request: Request, r: Option<map<string, Presence>>)
      ensures request == Request(baseUrl + "/online", headers, map[])
      ensures r == OnlineResult(resp)
    {
      request := Request(baseUrl + "/online", headers, map[]);
      if resp.Raised? {
        return request, None;
      }
      if resp.status != 200 {
        return request, Some(map[]);
      }
      if resp.body.None? || !resp.body.value.JObj? {
        return request, None;
      }
      var data := resp.body.value.fields;
      var result: map<string, Presence> := map[];
      var todo := data.Keys;
      while todo != {}
        invariant todo <= data.Keys
        invariant result.Keys == data.Keys - todo
        invariant forall u :: u in result ==> result[u] == PresenceOf(data[u])
        decreases todo
      {
        var user :| user in todo;
        var conns := data[user];
        var isOnline := false;
        var connVal := JArr([]);
        if conns.JArr? {
          isOnline := |conns.items| > 0;
          connVal := conns;
        } else if conns.JInt? || conns.JBool? {
          isOnline := if conns.JInt? then conns.i > 0 else conns.b;
          connVal := conns;
        } else if Truthy(conns) {
          isOnline := true;
        }
        result := result[user := Presence(isOnline, connVal)];
        todo := todo - {user};
      }
      assert result == map u | u in data :: PresenceOf(data[u]);
      return request, Some(result);
    }
  }
}
