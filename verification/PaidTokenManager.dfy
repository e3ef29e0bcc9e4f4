/**
 The paid-token manager over its storage items, updated in place as the pallet does: consumption
 records in rows under their period, and the member service's collections with their ring totals.
 The ghost `model` is the abstract state; every method keeps storage in step with it.
 */
module PaidTokenManager {
  import opened StorageOrder
  import opened PaidTokens

  /** A collection of the member service: the onboarding queue and the rings built so far. */
  datatype Collection = Collection(pending: set<Member>, rings: seq<set<Member>>)

  /** The records of one period, by ring and alias. */
  type Row = set<(nat, nat)>

  function RowOf(records: map<Period, Row>, p: Period): Row { if p in records then records[p] else {} }

  ghost predicate Flattens(records: map<Period, Row>, consumed: set<Token>) {
    forall x: Token :: x in consumed <==> (x.ring, x.alias) in RowOf(records, x.period)
  }

  /** The service's collections are those of the abstract state, and no ring is empty. */
  ghost predicate Serves(collections: map<Period, Collection>, s: State) {
    && s.pending.Keys == collections.Keys && s.rings.Keys == collections.Keys
    && (forall p :: p in collections ==> s.pending[p] == collections[p].pending && s.rings[p] == collections[p].rings)
    && (forall p, i :: p in collections && 0 <= i < |collections[p].rings| ==> collections[p].rings[i] != {})
  }

  /** Storing one collection keeps the others served. */
  lemma ServesWrite(collections: map<Period, Collection>, s: State, t: State, p: Period, c: Collection)
    requires Serves(collections, s) && forall i :: 0 <= i < |c.rings| ==> c.rings[i] != {}
    requires t.pending == s.pending[p := c.pending]
    requires t.rings == s.rings[p := c.rings]
    ensures Serves(collections[p := c], t)
  {
  }

  lemma ServesDrop(collections: map<Period, Collection>, s: State, t: State, p: Period)
    requires Serves(collections, s) && t.pending == s.pending - {p} && t.rings == s.rings - {p}
    ensures Serves(collections - {p}, t)
  {
  }

  /** What is served under one period. */
  lemma ServedAt(collections: map<Period, Collection>, s: State, p: Period)
    requires Serves(collections, s)
    ensures p in collections ==>
      && Pending(s, p) == collections[p].pending && Rings(s, p) == collections[p].rings
      && s.rings[p := collections[p].rings] == s.rings
      && forall i :: 0 <= i < |collections[p].rings| ==> collections[p].rings[i] != {}
    ensures p !in collections ==> Pending(s, p) == {} && Rings(s, p) == []
  {
  }

  lemma RowsEmptyIff(records: map<Period, Row>, consumed: set<Token>, p: Period)
    requires Flattens(records, consumed)
    ensures RowOf(records, p) != {} <==> exists x :: x in consumed && x.period == p
  {
    if RowOf(records, p) != {} {
      var e :| e in RowOf(records, p);
      assert Token(p, e.0, e.1) in consumed;
    }
  }

  lemma RowDrained(records: map<Period, Row>, s: State, p: Period, gone: set<Token>)
    requires Flattens(records, s.consumed) && gone <= RecordsOf(s, p)
    ensures var left := RowOf(records, p) - RowPart(gone, p);
      && Flattens(records[p := left], s.consumed - gone)
      && (left == {} <==> RecordsOf(s, p) <= gone)
  {
    var left := RowOf(records, p) - RowPart(gone, p);
    if left == {} {
      forall x | x in RecordsOf(s, p) ensures x in gone {
        assert (x.ring, x.alias) in RowOf(records, p) && (x.ring, x.alias) !in left;
        var y :| y in gone && y.period == p && (y.ring, y.alias) == (x.ring, x.alias);
        assert y == x;
      }
    } else {
      var e :| e in left;
      assert Token(p, e.0, e.1) in RecordsOf(s, p);
    }
  }

  /** The keys of the removed records within their row. */
  function RowPart(gone: set<Token>, p: Period): Row { set x | x in gone && x.period == p :: (x.ring, x.alias) }

  class Manager {
    const cfg: Config
    var created: set<Period>
    var nextRingToClean: map<Period, nat>
    var memberKeys: set<Member>
    var consumed: map<Period, Row>
    var dusting: set<Period>
    var collections: map<Period, Collection>
    var retiredIdentifiers: set<Period>
    ghost var model: State

    ghost predicate Valid()
      reads this
    {
      && created == model.created && created == collections.Keys
      && nextRingToClean == model.nextRing
      && memberKeys == model.members.Keys
      && dusting == model.dusting && retiredIdentifiers == model.retired
      && Flattens(consumed, model.consumed)
      && Serves(collections, model)
    }

    constructor (cfg: Config)
      ensures this.cfg == cfg && Valid() && model == Genesis
    {
      this.cfg := cfg;
      created, nextRingToClean, memberKeys, consumed, dusting := {}, map[], {}, map[], {};
      collections, retiredIdentifiers := map[], {};
      model := Genesis;
    }

    /** `ring_status(..).total`: zero past the last ring. */
    function RingTotal(p: Period, ring: nat): nat
      reads this
    {
      if p in collections && ring < |collections[p].rings| then |collections[p].rings[ring]| else 0
    }

    function NextRingOf(p: Period): nat
      reads this
    {
      if p in nextRingToClean then nextRingToClean[p] else 0
    }

    lemma TotalTellsRings(p: Period, ring: nat)
      requires Valid()
      ensures RingTotal(p, ring) > 0 <==> ring < |Rings(model, p)|
    {
    }

    method EnsureCollectionExists(p: Period, env: Env) returns (r: Result)
      requires Valid()
      modifies this
      ensures Valid() && Outcome(model, r) == EnsureCollection(old(model), p, env)
    {
      hide Serves, Flattens;
      if p in created { return Ok; }
      if p in retiredIdentifiers { return Err(IdentifierRetired); }
      if !env.serviceOk { return Err(ServiceRefused); }
      ServesWrite(collections, model, EnsureCollection(model, p, env).state, p, Collection({}, []));
      collections := collections[p := Collection({}, [])];
      created := created + {p};
      model := EnsureCollection(model, p, env).state;
      r := Ok;
    }

    method AddMemberKey(m: Member, env: Env) returns (r: Result)
      requires Valid()
      modifies this
      ensures Valid() && Outcome(model, r) == AddMember(cfg, old(model), m, env)
    {
      hide PeriodAt, Flattens, Serves;
      if m in memberKeys { return Err(MemberKeyAlreadyUsed); }
      if !env.proofOk { return Err(InvalidMemberKey); }
      var p := PeriodAt(cfg, Now32(env));
      r := EnsureCollectionExists(p, env);
      if r != Ok { return; }
      if !env.serviceOk { return Err(ServiceRefused); }
      ServedAt(collections, model, p);
      var c := Collection(collections[p].pending + {m}, collections[p].rings);
      ghost var t := model.(pending := model.pending[p := Pending(model, p) + {m}], members := model.members[m := p]);
      ServesWrite(collections, model, t, p, c);
      collections := collections[p := c];
      memberKeys := memberKeys + {m};
      model := t;
    }

    /** The member service moves a pending member into a ring. */
    method OnboardMember(p: Period, m: Member, newRing: bool)
      requires Valid()
      modifies this
      ensures Valid() && model == Onboard(old(model), p, m, newRing).state
    {
      hide Flattens, Serves;
      ServedAt(collections, model, p);
      if p !in collections || m !in collections[p].pending { return; }
      var c := collections[p];
      var rings := c.rings;
      if newRing || rings == [] {
        rings := rings + [{m}];
      } else {
        var last := |rings| - 1;
        rings := rings[last := rings[last] + {m}];
        assert rings == c.rings[..last] + [c.rings[last] + {m}];
      }
      ghost var t := Onboard(model, p, m, newRing).state;
      assert t.rings == model.rings[p := rings];
      ServesWrite(collections, model, t, p, Collection(c.pending - {m}, rings));
      collections := collections[p := Collection(c.pending - {m}, rings)];
      model := t;
    }

    /** `ensure_can_clean_ring`: the ring must be the next one, and exist. */
    method EnsureCanCleanRing(p: Period, ring: nat, env: Env) returns (r: Result)
      requires Valid()
      ensures r == CleanRing(cfg, model, p, ring, env).result
    {
      hide ExpiresAt, Flattens;
      TotalTellsRings(p, ring);
      if p !in created { return Err(NothingToBuild); }
      if Now32(env) < ExpiresAt(cfg, p) { return Err(Future); }
      if ring != NextRingOf(p) { return Err(Stale); }
      if RingTotal(p, ring) == 0 { return Err(Stale); }
      r := Ok;
    }

    method CleanRingMembers(p: Period, ring: nat, env: Env) returns (r: Result)
      requires Valid()
      modifies this
      ensures Valid() && Outcome(model, r) == CleanRing(cfg, old(model), p, ring, env)
    {
      hide ExpiresAt, Flattens;
      r := EnsureCanCleanRing(p, ring, env);
      if r != Ok { return; }
      memberKeys := RemoveAll(memberKeys, collections[p].rings[ring]);
      nextRingToClean := nextRingToClean[p := ring + 1];
      model := CleanRing(cfg, model, p, ring, env).state;
    }

    /** `ensure_can_delete_collection`: nothing is left at the next ring to clean. */
    method EnsureCanDeleteCollection(p: Period, env: Env) returns (r: Result)
      requires Valid()
      ensures env.serviceOk ==> r == DeleteCollection(cfg, model, p, env).result
      ensures !env.serviceOk ==> DeleteCollection(cfg, model, p, env).result == if r == Ok then Err(ServiceRefused) else r
    {
      hide ExpiresAt, Flattens;
      TotalTellsRings(p, NextRingOf(p));
      if p !in created { return Err(NothingToBuild); }
      if Now32(env) < ExpiresAt(cfg, p) { return Err(Future); }
      if RingTotal(p, NextRingOf(p)) > 0 { return Err(Stale); }
      r := Ok;
    }

    method DeleteExpiredCollection(p: Period, env: Env) returns (r: Result)
      requires Valid()
      modifies this
      ensures Valid() && Outcome(model, r) == DeleteCollection(cfg, old(model), p, env)
    {
      hide ExpiresAt, Flattens, Serves;
      r := EnsureCanDeleteCollection(p, env);
      if r != Ok { return; }
      if !env.serviceOk { return Err(ServiceRefused); }
      ServesDrop(collections, model, DeleteCollection(cfg, model, p, env).state, p);
      collections := collections - {p};
      retiredIdentifiers := retiredIdentifiers + {p};
      created := created - {p};
      nextRingToClean := nextRingToClean - {p};
      RowsEmptyIff(consumed, model.consumed, p);
      if RowOf(consumed, p) != {} {
        dusting := dusting + {p};
      }
      model := DeleteCollection(cfg, model, p, env).state;
    }

    method ConsumeToken(x: Token, env: Env) returns (r: Result)
      requires Valid()
      modifies this
      ensures Valid() && Outcome(model, r) == Consume(cfg, old(model), x, env)
    {
      hide ExpiresAt;
      TotalTellsRings(x.period, x.ring);
      // a root exists only for a populated ring
      if x.period !in collections || RingTotal(x.period, x.ring) == 0 || !env.serviceOk {
        return Err(InvalidRevision);
      }
      if Now32(env) >= ExpiresAt(cfg, x.period) { return Err(Stale); }
      if !env.proofOk { return Err(InvalidTokenProof); }
      if (x.ring, x.alias) in RowOf(consumed, x.period) { return Err(AlreadyConsumed); }
      consumed := consumed[x.period := RowOf(consumed, x.period) + {(x.ring, x.alias)}];
      model := Consume(cfg, model, x, env).state;
      r := Ok;
    }

    /** `clean_dust_unchecked`: the cursor is none, and the period done, iff its row is empty then. */
    method CleanDustRecords(env: Env) returns (r: Result)
      requires Valid() && Legal(model, Step(OpDust, env))
      modifies this
      ensures Valid() && Outcome(model, r) == CleanDust(old(model), env)
    {
      if dusting == {} { return Err(Stale); }
      var p := Least(dusting);
      RowDrained(consumed, model, p, env.gone);
      hide Flattens;
      var left := RowOf(consumed, p) - RowPart(env.gone, p);
      consumed := consumed[p := left];
      if left == {} {
        dusting := dusting - {p};
      }
      model := CleanDust(model, env).state;
      r := Ok;
    }
  }

  /** The clean-up loop: one key of the ring after another leaves the registry. */
  method RemoveAll(keys: set<Member>, ring: set<Member>) returns (left: set<Member>)
    ensures left == keys - ring
  {
    left := keys;
    var todo := ring;
    while todo != {}
      invariant todo <= ring
      invariant left == keys - (ring - todo)
      decreases |todo|
    {
      var m :| m in todo;
      left := left - {m};
      todo := todo - {m};
    }
  }
}
