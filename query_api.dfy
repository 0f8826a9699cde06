/**
 * The dashboard's read side (soc-dashboard/server.js): how the answers of the
 * search index become the bodies of `/api/attacks` and `/api/stats`. Objects
 * keep their members in insertion order; JavaScript's rule that integer-like
 * keys come first is not modelled.
 */
module QueryApi {

  import opened Wrappers

  datatype Json =
    | JNull
    | JBool(b: bool)
    | JNum(n: int)
    | JStr(s: string)
    | JArr(items: seq<Json>)
    | JObj(members: seq<Member>)

  datatype Member = Member(key: string, value: Json)

  /** The keys of an object, in order. */
  function Keys(ms: seq<Member>): (ks: seq<string>)
    ensures |ks| == |ms| && forall i :: 0 <= i < |ms| ==> ks[i] == ms[i].key
  {
    seq(|ms|, i requires 0 <= i < |ms| => ms[i].key)
  }

  /** No key appears twice, as in any JavaScript object. */
  predicate UniqueKeys(ms: seq<Member>) {
    forall i, j :: 0 <= i < j < |ms| ==> ms[i].key != ms[j].key
  }

  /** `obj[key]`: the value of the member named `key`, `None` for `undefined`. */
  function Find(ms: seq<Member>, key: string): (r: Option<Json>)
    ensures r.None? <==> forall i :: 0 <= i < |ms| ==> ms[i].key != key
    ensures r.Some? ==> Member(key, r.value) in ms
    decreases |ms|
  {
    if ms == [] then None
    else if ms[0].key == key then Some(ms[0].value)
    else Find(ms[1..], key)
  }

  /** In an object with distinct keys, each member is found under its own key. */
  lemma {:induction false} FindAt(ms: seq<Member>, i: nat)
    requires UniqueKeys(ms) && i < |ms|
    ensures Find(ms, ms[i].key) == Some(ms[i].value)
    decreases i
  {
    if i > 0 {
      assert UniqueKeys(ms[1..]) by {
        forall a, b | 0 <= a < b < |ms[1..]|
          ensures ms[1..][a].key != ms[1..][b].key
        {
          assert ms[1..][a] == ms[a + 1] && ms[1..][b] == ms[b + 1];
        }
      }
      FindAt(ms[1..], i - 1);
      assert ms[1..][i - 1] == ms[i];
    }
  }

  /**
   * `obj[key] = value`: an existing member keeps its place and takes the new
   * value; a new key goes at the end.
   */
  function Assign(ms: seq<Member>, key: string, value: Json): (r: seq<Member>)
    ensures |r| == (if Find(ms, key).Some? then |ms| else |ms| + 1)
    ensures forall i :: 0 <= i < |ms| ==> r[i].key == ms[i].key
    ensures Find(ms, key).None? ==> r[|ms|] == Member(key, value)
    ensures Find(r, key) == Some(value)
    ensures forall other :: other != key ==> Find(r, other) == Find(ms, other)
    decreases |ms|
  {
    if ms == [] then [Member(key, value)]
    else if ms[0].key == key then [Member(key, value)] + ms[1..]
    else [ms[0]] + Assign(ms[1..], key, value)
  }

  /** Assigning to an object with distinct keys leaves its keys distinct. */
  lemma {:induction false} AssignUnique(ms: seq<Member>, key: string, value: Json)
    requires UniqueKeys(ms)
    ensures UniqueKeys(Assign(ms, key, value))
  {
    var r := Assign(ms, key, value);
    forall i, j | 0 <= i < j < |r|
      ensures r[i].key != r[j].key
    {
      if j == |ms| {
        assert Find(ms, key).None?;
      }
    }
  }

  /** `{...base, ...source}` read from the left: each member of `source` is assigned in turn. */
  function Spread(base: seq<Member>, source: seq<Member>): (r: seq<Member>)
    ensures |base| <= |r| <= |base| + |source|
    decreases |source|
  {
    if source == [] then base
    else Spread(Assign(base, source[0].key, source[0].value), source[1..])
  }

  /** After spreading, a key of `source` has `source`'s value; any other key keeps `base`'s. */
  lemma {:induction false} SpreadFind(base: seq<Member>, source: seq<Member>, key: string)
    requires UniqueKeys(source)
    ensures Find(Spread(base, source), key) ==
      if Find(source, key).Some? then Find(source, key) else Find(base, key)
    decreases |source|
  {
    if source != [] {
      var next := Assign(base, source[0].key, source[0].value);
      SpreadFind(next, source[1..], key);
      if key == source[0].key {
        assert Find(source[1..], key).None? by {
          forall i | 0 <= i < |source[1..]|
            ensures source[1..][i].key != key
          {
            assert source[1..][i] == source[i + 1];
          }
        }
      }
    }
  }

  /** Spreading keeps the members of `base` where they were, by key, and their keys distinct. */
  lemma {:induction false} SpreadKeepsBase(base: seq<Member>, source: seq<Member>)
    requires UniqueKeys(base)
    ensures |Spread(base, source)| >= |base|
    ensures forall i :: 0 <= i < |base| ==> Spread(base, source)[i].key == base[i].key
    ensures UniqueKeys(Spread(base, source))
    decreases |source|
  {
    if source != [] {
      var next := Assign(base, source[0].key, source[0].value);
      AssignUnique(base, source[0].key, source[0].value);
      SpreadKeepsBase(next, source[1..]);
    }
  }

  // ---------------------------------------------------------------------------
  // GET /api/attacks
  // ---------------------------------------------------------------------------

  /** One search hit: the document id and the stored record. */
  datatype SearchHit = SearchHit(id: string, source: seq<Member>)

  /**
   * `{ id: hit._id, ...hit._source }`: `id` comes first; the stored record's
   * own `id`, if it has one, replaces the document id in that first place.
   */
  function AttackView(hit: SearchHit): (view: seq<Member>)
    requires UniqueKeys(hit.source)
    ensures |view| >= 1 && view[0].key == "id" && UniqueKeys(view)
    ensures Find(view, "id") ==
      if Find(hit.source, "id").Some? then Find(hit.source, "id") else Some(JStr(hit.id))
    ensures forall key :: key != "id" ==> Find(view, key) == Find(hit.source, key)
  {
    var base := [Member("id", JStr(hit.id))];
    SpreadKeepsBase(base, hit.source);
    forall key
      ensures Find(Spread(base, hit.source), key) ==
        if Find(hit.source, key).Some? then Find(hit.source, key) else Find(base, key)
    {
      SpreadFind(base, hit.source, key);
    }
    Spread(base, hit.source)
  }

  /** Every stored record has distinct keys. */
  predicate WellFormedHits(hits: seq<SearchHit>) {
    forall k :: 0 <= k < |hits| ==> UniqueKeys(hits[k].source)
  }

  /** The body of `/api/attacks`; `None` is a search that failed, answered with `[]`. */
  function RecentAttacks(hits: Option<seq<SearchHit>>): (body: Json)
    requires hits.Some? ==> WellFormedHits(hits.value)
    ensures body.JArr?
    ensures hits.None? ==> body == JArr([])
    ensures hits.Some? ==>
      && |body.items| == |hits.value|
      && forall k :: 0 <= k < |hits.value| ==> body.items[k] == JObj(AttackView(hits.value[k]))
  {
    match hits
    case None => JArr([])
    case Some(hs) => JArr(seq(|hs|, k requires 0 <= k < |hs| => JObj(AttackView(hs[k]))))
  }

  /** To a client, a failed search looks exactly like an empty index. */
  lemma {:induction false} AttacksFailureLooksEmpty()
    ensures RecentAttacks(None) == RecentAttacks(Some([]))
  {
  }

  // ---------------------------------------------------------------------------
  // GET /api/stats
  // ---------------------------------------------------------------------------

  /**
   * What the aggregation search returns, read along the paths the handler
   * uses: `hits.total.value` and the `buckets` of the three aggregations. A leaf
   * the answer lacks is `None` (`undefined`). A missing parent object makes the
   * handler throw, as a failed search does; that is `None` for the whole result.
   */
  datatype StatsResult = StatsResult(
    total: Option<int>,
    byType: Option<seq<Json>>,
    byCountry: Option<seq<Json>>,
    timeline: Option<seq<Json>>)

  const StatsKeys: seq<string> := ["total", "byType", "byCountry", "timeline"]

  /** A member whose value is `undefined` is dropped by `JSON.stringify`. */
  function Optional(key: string, value: Option<Json>): (ms: seq<Member>)
    ensures |ms| <= 1 && forall i :: 0 <= i < |ms| ==> ms[i].key == key
  {
    if value.Some? then [Member(key, value.value)] else []
  }

  /** The JSON value of a bucket list that may be missing. */
  function Buckets(bs: Option<seq<Json>>): Option<Json> {
    if bs.Some? then Some(JArr(bs.value)) else None
  }

  /** The statistics answered when every leaf is present. */
  function FullStats(total: int, byType: seq<Json>, byCountry: seq<Json>, timeline: seq<Json>): StatsResult {
    StatsResult(Some(total), Some(byType), Some(byCountry), Some(timeline))
  }

  /**
   * The body of `/api/stats`. A failed search (`None`) is answered with zeros
   * under all four keys; a successful one carries each leaf it has, and a key
   * whose leaf is missing is absent from the body rather than zero.
   */
  function StatsResponse(result: Option<StatsResult>): (body: Json)
    ensures body.JObj? && UniqueKeys(body.members)
    ensures forall i :: 0 <= i < |body.members| ==> body.members[i].key in StatsKeys
    ensures result.Some? ==>
      && Find(body.members, "total") == TotalJson(result.value.total)
      && Find(body.members, "byType") == Buckets(result.value.byType)
      && Find(body.members, "byCountry") == Buckets(result.value.byCountry)
      && Find(body.members, "timeline") == Buckets(result.value.timeline)
    ensures result.None? || (result.value.total.Some? && result.value.byType.Some? &&
                             result.value.byCountry.Some? && result.value.timeline.Some?) ==>
      Keys(body.members) == StatsKeys
    ensures result.None? ==>
      && Find(body.members, "total") == Some(JNum(0))
      && Find(body.members, "byType") == Some(JArr([]))
      && Find(body.members, "byCountry") == Some(JArr([]))
      && Find(body.members, "timeline") == Some(JArr([]))
  {
    var s := if result.Some? then result.value else FullStats(0, [], [], []);
    StatsMembersUnique(s);
    StatsMembersFind(s);
    StatsMembersFull(s);
    JObj(StatsMembers(s))
  }

  /** The `total` leaf as JSON, if present. */
  function TotalJson(total: Option<int>): Option<Json> {
    if total.Some? then Some(JNum(total.value)) else None
  }

  /** The members of the statistics body, in the order the object literal lists them. */
  function StatsMembers(s: StatsResult): seq<Member> {
    Optional("total", TotalJson(s.total)) +
    (Optional("byType", Buckets(s.byType)) +
     (Optional("byCountry", Buckets(s.byCountry)) + Optional("timeline", Buckets(s.timeline))))
  }

  lemma {:induction false} StatsMembersUnique(s: StatsResult)
    ensures UniqueKeys(StatsMembers(s))
    ensures forall i :: 0 <= i < |StatsMembers(s)| ==> StatsMembers(s)[i].key in StatsKeys
  {
    var d := Optional("timeline", Buckets(s.timeline));
    var cd := Optional("byCountry", Buckets(s.byCountry)) + d;
    PrependUnique("byCountry", Buckets(s.byCountry), d);
    var bcd := Optional("byType", Buckets(s.byType)) + cd;
    PrependUnique("byType", Buckets(s.byType), cd);
    PrependUnique("total", TotalJson(s.total), bcd);
  }

  lemma {:induction false} StatsMembersFind(s: StatsResult)
    ensures Find(StatsMembers(s), "total") == TotalJson(s.total)
    ensures Find(StatsMembers(s), "byType") == Buckets(s.byType)
    ensures Find(StatsMembers(s), "byCountry") == Buckets(s.byCountry)
    ensures Find(StatsMembers(s), "timeline") == Buckets(s.timeline)
  {
    var d := Optional("timeline", Buckets(s.timeline));
    PrependFind("timeline", Buckets(s.timeline), [], "timeline");
    assert d + [] == d;
    var cd := Optional("byCountry", Buckets(s.byCountry)) + d;
    PrependFind("byCountry", Buckets(s.byCountry), d, "byCountry");
    PrependFind("byCountry", Buckets(s.byCountry), d, "timeline");
    var bcd := Optional("byType", Buckets(s.byType)) + cd;
    PrependFind("byType", Buckets(s.byType), cd, "byType");
    PrependFind("byType", Buckets(s.byType), cd, "byCountry");
    PrependFind("byType", Buckets(s.byType), cd, "timeline");
    PrependFind("total", TotalJson(s.total), bcd, "total");
    PrependFind("total", TotalJson(s.total), bcd, "byType");
    PrependFind("total", TotalJson(s.total), bcd, "byCountry");
    PrependFind("total", TotalJson(s.total), bcd, "timeline");
  }

  lemma {:induction false} StatsMembersFull(s: StatsResult)
    ensures s.total.Some? && s.byType.Some? && s.byCountry.Some? && s.timeline.Some? ==>
      Keys(StatsMembers(s)) == StatsKeys
  {
    if s.total.Some? && s.byType.Some? && s.byCountry.Some? && s.timeline.Some? {
      assert StatsMembers(s) == [Member("total", JNum(s.total.value)), Member("byType", JArr(s.byType.value)),
                                 Member("byCountry", JArr(s.byCountry.value)), Member("timeline", JArr(s.timeline.value))];
    }
  }

  /** An optional member in front of members with other keys keeps the keys distinct and within `StatsKeys`. */
  lemma {:induction false} PrependUnique(key: string, value: Option<Json>, rest: seq<Member>)
    requires key in StatsKeys && UniqueKeys(rest)
    requires forall i :: 0 <= i < |rest| ==> rest[i].key != key && rest[i].key in StatsKeys
    ensures UniqueKeys(Optional(key, value) + rest)
    ensures forall i :: 0 <= i < |Optional(key, value) + rest| ==> (Optional(key, value) + rest)[i].key in StatsKeys
  {
    var ms := Optional(key, value) + rest;
    if value.Some? {
      forall i | 1 <= i < |ms|
        ensures ms[i] == rest[i - 1]
      {
      }
    } else {
      assert ms == rest;
    }
  }

  /** In front of members with other keys, an optional member is found under its key, and the rest under theirs. */
  lemma {:induction false} PrependFind(key: string, value: Option<Json>, rest: seq<Member>, lookup: string)
    requires forall i :: 0 <= i < |rest| ==> rest[i].key != key
    ensures Find(Optional(key, value) + rest, lookup) == if lookup == key then value else Find(rest, lookup)
  {
    var ms := Optional(key, value) + rest;
    if value.Some? {
      assert ms[0] == Member(key, value.value) && ms[1..] == rest;
    } else {
      assert ms == rest;
    }
  }

  /** A failed statistics search looks exactly like statistics over an empty index. */
  lemma {:induction false} StatsFailureLooksEmpty()
    ensures StatsResponse(None) == StatsResponse(Some(FullStats(0, [], [], [])))
  {
  }

  /** An answer without `hits.total.value` gives a body with no `total` key at all, not a zero. */
  lemma {:induction false} StatsMissingTotalDropped(byType: seq<Json>, byCountry: seq<Json>, timeline: seq<Json>)
    ensures Find(StatsResponse(Some(StatsResult(None, Some(byType), Some(byCountry), Some(timeline)))).members, "total").None?
    ensures Keys(StatsResponse(Some(StatsResult(None, Some(byType), Some(byCountry), Some(timeline)))).members) ==
      StatsKeys[1..]
  {
    var body := StatsResponse(Some(StatsResult(None, Some(byType), Some(byCountry), Some(timeline))));
    assert body.members == [Member("byType", JArr(byType)), Member("byCountry", JArr(byCountry)),
                            Member("timeline", JArr(timeline))];
  }
}
