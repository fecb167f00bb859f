/**
 Which stored sessions a retention run removes: expired ones, and the oldest
 measured snapshots while their exact bytes exceed the cap, but never the newest
 session nor the newest one with an audit record.
 */
module Retention {
  import opened Wrappers
  import opened Sorting

  /** A stored session: `bytes` are exact when the snapshot was measured. */
  datatype Item = Item(
    id: string, startedAt: int, bytes: nat, exact: bool, accountingKnown: bool,
    hasSnapshot: bool, damaged: bool, auditRecord: bool)
  {
    /** Its bytes count against the cap. */
    predicate Measured() {
      hasSnapshot && accountingKnown && exact
    }
  }

  datatype Policy = Policy(cap: int, maxAge: int, now: int) {
    predicate Expired(item: Item) {
      maxAge > 0 && item.startedAt < now - maxAge
    }
  }

  datatype Usage = Usage(bytes: int, sessions: int, exact: bool)

  datatype Removal = Removal(
    id: string, startedAt: int, bytes: int, exact: bool, hasSnapshot: bool, expired: bool, capRequired: bool)

  datatype Plan = Plan(before: Usage, after: Usage, removals: seq<Removal>)

  /** The newest session, and the newest with an audit record. */
  predicate Protected(items: seq<Item>, index: nat)
    requires index < |items|
  {
    index == |items| - 1 ||
    (items[index].auditRecord && forall later :: index < later < |items| ==> !items[later].auditRecord)
  }

  function MeasuredBytes(items: seq<Item>): nat {
    if items == [] then 0
    else
      var last := items[|items| - 1];
      MeasuredBytes(items[..|items| - 1]) + if last.Measured() then last.bytes else 0
  }

  /** The measured bytes left when the first `count` items have been decided. */
  function Enforced(items: seq<Item>, policy: Policy, count: nat): int
    requires count <= |items|
    decreases count, 0
  {
    if count == 0 then MeasuredBytes(items)
    else
      Enforced(items, policy, count - 1) -
      if items[count - 1].Measured() && Goes(items, policy, count - 1) then items[count - 1].bytes else 0
  }

  predicate CapRequired(items: seq<Item>, policy: Policy, index: nat)
    requires index < |items|
    decreases index, 1
  {
    items[index].Measured() && Enforced(items, policy, index) > policy.cap
  }

  predicate Goes(items: seq<Item>, policy: Policy, index: nat)
    requires index < |items|
    decreases index, 2
  {
    !Protected(items, index) && (policy.Expired(items[index]) || CapRequired(items, policy, index))
  }

  function RemovalOf(items: seq<Item>, policy: Policy, index: nat): Removal
    requires index < |items|
  {
    var item := items[index];
    Removal(item.id, item.startedAt, item.bytes, item.accountingKnown && item.exact, item.hasSnapshot,
            policy.Expired(item), CapRequired(items, policy, index))
  }

  function Removals(items: seq<Item>, policy: Policy, count: nat): seq<Removal>
    requires count <= |items|
  {
    if count == 0 then []
    else
      Removals(items, policy, count - 1) +
      if Goes(items, policy, count - 1) then [RemovalOf(items, policy, count - 1)] else []
  }

  /* What the planner computes. */

  /** The usage of the stores among these items, as a recount finds it. */
  function Recount(items: seq<Item>): Usage {
    if items == [] then Usage(0, 0, true)
    else
      var last, usage := items[|items| - 1], Recount(items[..|items| - 1]);
      if !last.hasSnapshot then usage
      else
        Usage(usage.bytes + if last.accountingKnown then last.bytes else 0, usage.sessions + 1,
              usage.exact && last.accountingKnown && last.exact)
  }

  /** Oldest first; sessions that started together are ordered by id. */
  predicate Older(left: Item, right: Item) {
    left.startedAt < right.startedAt || (left.startedAt == right.startedAt && TextLeq(left.id, right.id))
  }

  lemma OlderOrder()
    ensures TotalOrder(Older)
  {
    forall left, right
      ensures Older(left, right) || Older(right, left)
    {
      TextLeqTotal(left.id, right.id);
    }
    forall first, second, third | Older(first, second) && Older(second, third)
      ensures Older(first, third)
    {
      if first.startedAt == second.startedAt == third.startedAt {
        TextLeqTrans(first.id, second.id, third.id);
      }
    }
  }

  method NewestAudited(items: seq<Item>) returns (index: int)
    ensures -1 <= index < |items|
    ensures index >= 0 ==> items[index].auditRecord
    ensures forall later :: index < later < |items| ==> !items[later].auditRecord
  {
    index := |items| - 1;
    while index >= 0 && !items[index].auditRecord
      invariant -1 <= index < |items|
      invariant forall later :: index < later < |items| ==> !items[later].auditRecord
    {
      index := index - 1;
    }
  }

  method Measure(items: seq<Item>) returns (usage: Usage, enforced: nat)
    ensures usage == Recount(items) && enforced == MeasuredBytes(items)
  {
    usage, enforced := Usage(0, 0, true), 0;
    for index := 0 to |items|
      invariant usage == Recount(items[..index]) && enforced == MeasuredBytes(items[..index])
    {
      var item := items[index];
      assert items[..index + 1][..index] == items[..index];
      if item.hasSnapshot {
        var known := if item.accountingKnown then item.bytes else 0;
        usage := Usage(usage.bytes + known, usage.sessions + 1, usage.exact && item.accountingKnown && item.exact);
        if item.accountingKnown && item.exact {
          enforced := enforced + item.bytes;
        }
      }
    }
    assert items[..|items|] == items;
  }

  /** Plans over items ordered oldest first. A negative cap is refused. */
  method PlanRetention(items: seq<Item>, policy: Policy) returns (plan: Option<Plan>)
    ensures plan.None? <==> policy.cap < 0
    ensures plan.Some? ==>
      && plan.value.before == Recount(items)
      && plan.value.removals == Removals(items, policy, |items|)
      && plan.value.after.bytes == Recount(Remaining(items, policy, |items|)).bytes
      && plan.value.after.sessions == Recount(Remaining(items, policy, |items|)).sessions
      && plan.value.after.exact == plan.value.before.exact
  {
    hide Recount, CountedSoFar;
    ghost var exact := Recount(items).exact;
    if policy.cap < 0 {
      return None;
    }
    var before, enforced := Measure(items);
    var after, removals := before, [];
    var newestAudited := NewestAudited(items);
    var left: int := enforced;
    CountStart(items, policy);
    for index := 0 to |items|
      invariant left == Enforced(items, policy, index)
      invariant removals == Removals(items, policy, index)
      invariant CountedSoFar(items, policy, index, after) && after.exact == exact
    {
      var item := items[index];
      var expired := policy.maxAge > 0 && item.startedAt < policy.now - policy.maxAge;
      var capRequired := item.Measured() && left > policy.cap;
      var protected := index == |items| - 1 || index == newestAudited;
      CountNext(items, policy, index, after);
      if !protected && (expired || capRequired) {
        removals := removals + [
          Removal(item.id, item.startedAt, item.bytes, item.accountingKnown && item.exact, item.hasSnapshot,
                  expired, capRequired)];
        if item.hasSnapshot {
          after := Usage(after.bytes - (if item.accountingKnown then item.bytes else 0), after.sessions - 1, after.exact);
          if item.accountingKnown && item.exact {
            left := left - item.bytes;
          }
        }
      }
    }
    CountEnd(items, policy, after);
    plan := Some(Plan(before, after, removals));
  }

  /** The usage of the items still to be decided. */
  function Tail(items: seq<Item>, index: nat): Usage
    requires index <= |items|
  {
    var all, done := Recount(items), Recount(items[..index]);
    Usage(all.bytes - done.bytes, all.sessions - done.sessions, true)
  }

  /** The running usage counts what stays so far and everything not yet decided. */
  ghost predicate CountedSoFar(items: seq<Item>, policy: Policy, index: nat, after: Usage)
    requires index <= |items|
  {
    var left, tail := Recount(Remaining(items, policy, index)), Tail(items, index);
    after.bytes == left.bytes + tail.bytes && after.sessions == left.sessions + tail.sessions
  }

  lemma CountStart(items: seq<Item>, policy: Policy)
    ensures CountedSoFar(items, policy, 0, Recount(items))
  {
  }

  lemma CountNext(items: seq<Item>, policy: Policy, index: nat, after: Usage)
    requires index < |items| && CountedSoFar(items, policy, index, after)
    ensures
      var item := items[index];
      var known := if item.accountingKnown then item.bytes else 0;
      CountedSoFar(
        items, policy, index + 1,
        if item.hasSnapshot && Goes(items, policy, index)
        then Usage(after.bytes - known, after.sessions - 1, after.exact) else after)
  {
    TailNext(items, index);
    RemainingNext(items, policy, index);
    hide Recount, Remaining;
  }

  lemma CountEnd(items: seq<Item>, policy: Policy, after: Usage)
    requires CountedSoFar(items, policy, |items|, after)
    ensures
      var left := Recount(Remaining(items, policy, |items|));
      after.bytes == left.bytes && after.sessions == left.sessions
  {
    assert items[..|items|] == items;
  }

  lemma TailNext(items: seq<Item>, index: nat)
    requires index < |items|
    ensures
      var item := items[index];
      var here := if item.hasSnapshot && item.accountingKnown then item.bytes else 0;
      && Tail(items, index).bytes == Tail(items, index + 1).bytes + here
      && Tail(items, index).sessions == Tail(items, index + 1).sessions + if item.hasSnapshot then 1 else 0
  {
    assert items[..index + 1][..index] == items[..index];
  }

  /* What is stored after the removals. */

  /** Expired sessions are deleted; one over the cap loses its snapshot and keeps
      its audit record, if it has one. */
  predicate Stays(items: seq<Item>, policy: Policy, index: nat)
    requires index < |items|
  {
    !Goes(items, policy, index) || (!policy.Expired(items[index]) && items[index].auditRecord)
  }

  function Left(items: seq<Item>, policy: Policy, index: nat): Item
    requires index < |items|
  {
    if Goes(items, policy, index) then items[index].(hasSnapshot := false) else items[index]
  }

  /** The positions, among the first `count`, of the sessions that stay. */
  function Kept(items: seq<Item>, policy: Policy, count: nat): seq<nat>
    requires count <= |items|
    ensures forall i :: 0 <= i < |Kept(items, policy, count)| ==> Kept(items, policy, count)[i] < count
  {
    if count == 0 then []
    else
      Kept(items, policy, count - 1) + if Stays(items, policy, count - 1) then [count - 1] else []
  }

  function Remaining(items: seq<Item>, policy: Policy, count: nat): seq<Item>
    requires count <= |items|
  {
    if count == 0 then []
    else
      Remaining(items, policy, count - 1) +
      if Stays(items, policy, count - 1) then [Left(items, policy, count - 1)] else []
  }

  lemma RemainingNext(items: seq<Item>, policy: Policy, index: nat)
    requires index < |items|
    ensures
      var usage, next := Recount(Remaining(items, policy, index)), Recount(Remaining(items, policy, index + 1));
      var item := items[index];
      var stays := item.hasSnapshot && !Goes(items, policy, index);
      && next.bytes == usage.bytes + (if stays && item.accountingKnown then item.bytes else 0)
      && next.sessions == usage.sessions + (if stays then 1 else 0)
  {
    var earlier := Remaining(items, policy, index);
    if Stays(items, policy, index) {
      assert (earlier + [Left(items, policy, index)])[..|earlier|] == earlier;
    } else {
      assert earlier + [] == earlier;
    }
  }

  /* Safety, sufficiency and stability. */

  /** The bytes under enforcement only go down. */
  lemma {:induction false} EnforcedFalls(items: seq<Item>, policy: Policy, index: nat, count: nat)
    requires index <= count <= |items|
    ensures Enforced(items, policy, count) <= Enforced(items, policy, index)
    decreases count
  {
    if index < count {
      EnforcedFalls(items, policy, index, count - 1);
    }
  }

  /** Afterwards the measured bytes are within the cap, or only protected measured
      snapshots are left. */
  lemma Sufficient(items: seq<Item>, policy: Policy)
    ensures
      Enforced(items, policy, |items|) <= policy.cap ||
      forall index :: 0 <= index < |items| && items[index].Measured() && !Goes(items, policy, index) ==>
        Protected(items, index)
  {
    forall index | 0 <= index < |items| && Enforced(items, policy, |items|) > policy.cap
      ensures items[index].Measured() && !Goes(items, policy, index) ==> Protected(items, index)
    {
      EnforcedFalls(items, policy, index, |items|);
      assert items[index].Measured() ==> CapRequired(items, policy, index);
    }
  }

  /** A younger snapshot is only removed for the cap when every older one that could
      go has gone, and while the cap was still exceeded. */
  lemma OldestFirst(items: seq<Item>, policy: Policy, index: nat)
    requires index < |items| && Goes(items, policy, index) && !policy.Expired(items[index])
    ensures Enforced(items, policy, index) > policy.cap
    ensures forall older :: 0 <= older < index && items[older].Measured() && !Protected(items, older) ==>
      Goes(items, policy, older)
  {
    forall older | 0 <= older < index && items[older].Measured() && !Protected(items, older)
      ensures Goes(items, policy, older)
    {
      EnforcedFalls(items, policy, older, index);
    }
  }

  /** A session goes if and only if it is neither the newest nor the newest with an audit
      record, and is older than the policy allows or is a measured snapshot while the
      measured bytes that stay before it, with its own and all younger ones, exceed the
      cap. */
  lemma GoesExactly(items: seq<Item>, policy: Policy, index: nat)
    requires index < |items|
    ensures
      var item := items[index];
      var measured :=
        MeasuredBytes(Remaining(items, policy, index)) + MeasuredBytes(items) - MeasuredBytes(items[..index]);
      var expired := policy.maxAge > 0 && item.startedAt + policy.maxAge < policy.now;
      var overCap := item.hasSnapshot && item.accountingKnown && item.exact && measured > policy.cap;
      && (Goes(items, policy, index) <==>
            (expired || overCap) && index < |items| - 1 &&
            (item.auditRecord ==> exists later :: index < later < |items| && items[later].auditRecord))
      && RemovalOf(items, policy, index)
         == Removal(item.id, item.startedAt, item.bytes, item.accountingKnown && item.exact, item.hasSnapshot,
                    expired, overCap)
  {
    RemainingBytes(items, policy, index);
    hide Remaining, MeasuredBytes;
  }

  /** The plan lists exactly the sessions that go, oldest first. */
  lemma {:induction false} RemovalsExactly(items: seq<Item>, policy: Policy, count: nat)
    requires count <= |items|
    ensures
      var removals, going := Removals(items, policy, count), Going(items, policy, count);
      && |removals| == |going|
      && (forall i :: 0 <= i < |going| ==>
            going[i] < count && Goes(items, policy, going[i]) && removals[i] == RemovalOf(items, policy, going[i]))
      && (forall i, j :: 0 <= i < j < |going| ==> going[i] < going[j])
      && forall index :: 0 <= index < count && Goes(items, policy, index) ==> index in going
  {
    if count > 0 {
      RemovalsExactly(items, policy, count - 1);
      hide Goes, RemovalOf;
    }
  }

  function Going(items: seq<Item>, policy: Policy, count: nat): seq<nat>
    requires count <= |items|
    ensures forall i :: 0 <= i < |Going(items, policy, count)| ==> Going(items, policy, count)[i] < count
  {
    if count == 0 then []
    else Going(items, policy, count - 1) + if Goes(items, policy, count - 1) then [count - 1] else []
  }

  lemma {:induction false} KeptIs(items: seq<Item>, policy: Policy, count: nat)
    requires count <= |items|
    ensures
      var kept, left := Kept(items, policy, count), Remaining(items, policy, count);
      && |left| == |kept|
      && (forall i :: 0 <= i < |kept| ==>
            kept[i] < count && Stays(items, policy, kept[i]) && left[i] == Left(items, policy, kept[i]))
      && (forall i, j :: 0 <= i < j < |kept| ==> kept[i] < kept[j])
      && forall index :: 0 <= index < count && Stays(items, policy, index) ==> index in kept
  {
    if count > 0 {
      KeptIs(items, policy, count - 1);
    }
  }

  lemma {:induction false} RemainingBytes(items: seq<Item>, policy: Policy, count: nat)
    requires count <= |items|
    ensures
      MeasuredBytes(Remaining(items, policy, count))
      == Enforced(items, policy, count) - (MeasuredBytes(items) - MeasuredBytes(items[..count]))
  {
    if count > 0 {
      RemainingBytes(items, policy, count - 1);
      assert items[..count][..count - 1] == items[..count - 1];
      var earlier := Remaining(items, policy, count - 1);
      if Stays(items, policy, count - 1) {
        assert (earlier + [Left(items, policy, count - 1)])[..|earlier|] == earlier;
      } else {
        assert earlier + [] == earlier;
      }
    } else {
      assert MeasuredBytes(items[..0]) == 0;
    }
  }

  /** A session protected before the removals is protected after them. */
  lemma StillProtected(items: seq<Item>, policy: Policy, i: nat)
    requires
      var kept := Kept(items, policy, |items|);
      i < |kept| && i < |Remaining(items, policy, |items|)| && kept[i] < |items| && Protected(items, kept[i])
    ensures Protected(Remaining(items, policy, |items|), i)
  {
    var kept, left := Kept(items, policy, |items|), Remaining(items, policy, |items|);
    KeptIs(items, policy, |items|);
    if kept[i] == |items| - 1 {
      assert i == |left| - 1;
    } else {
      forall later | i < later < |left|
        ensures !left[later].auditRecord
      {
        assert kept[i] < kept[later];
      }
    }
  }

  /** With the bytes the removals left under enforcement, no session that stayed goes. */
  lemma StaysAgain(items: seq<Item>, policy: Policy, left: seq<Item>, i: nat)
    requires left == Remaining(items, policy, |items|) && i < |left|
    requires Enforced(left, policy, i) == Enforced(items, policy, |items|)
    ensures !Goes(left, policy, i)
  {
    KeptIs(items, policy, |items|);
    var index := Kept(items, policy, |items|)[i];
    Sufficient(items, policy);
    hide Kept, Remaining, Enforced, MeasuredBytes;
    if Protected(items, index) {
      StillProtected(items, policy, i);
    }
  }

  /** Planning again after the removals removes nothing more. */
  lemma {:induction false} ReplanRemovesNothing(items: seq<Item>, policy: Policy, left: seq<Item>, count: nat)
    requires left == Remaining(items, policy, |items|) && count <= |left|
    ensures Removals(left, policy, count) == []
    ensures Enforced(left, policy, count) == Enforced(items, policy, |items|)
  {
    if count > 0 {
      ReplanRemovesNothing(items, policy, left, count - 1);
      StaysAgain(items, policy, left, count - 1);
    } else {
      RemainingBytes(items, policy, |items|);
      assert items[..|items|] == items;
    }
  }

  /** The newest session and the newest audited one keep their snapshots. */
  lemma NewestStay(items: seq<Item>, policy: Policy, index: nat)
    requires index < |items| && Protected(items, index)
    ensures items[index] in Remaining(items, policy, |items|)
  {
    KeptIs(items, policy, |items|);
    assert Stays(items, policy, index) && Left(items, policy, index) == items[index];
    var i :| 0 <= i < |Kept(items, policy, |items|)| && Kept(items, policy, |items|)[i] == index;
    assert Remaining(items, policy, |items|)[i] == items[index];
  }

  /* The stored sessions, from audit records and snapshot directories. */

  datatype Audit = Audit(id: string, startedAt: int, bytes: nat, exact: bool, known: bool)

  datatype Manifest = Manifest(startedAt: int, bytes: nat, exact: bool)

  /** A snapshot directory; its manifest may be missing or unreadable. */
  datatype Store = Store(id: string, manifest: Option<Manifest>, modified: int)

  predicate ValidID(id: string) {
    id != "" && '/' !in id && '\\' !in id
  }

  function FromAudit(audit: Audit): Item {
    Item(audit.id, audit.startedAt, audit.bytes, audit.exact, audit.known, false, false, true)
  }

  /** A readable manifest is believed over the audit record; a damaged store keeps the
      record's bytes, and without one its bytes are unknown. */
  function WithStore(known: Option<Item>, store: Store): Item {
    match store.manifest
    case Some(manifest) =>
      var item :=
        if known.Some? then known.value
        else Item(store.id, manifest.startedAt, 0, false, false, false, false, false);
      item.(bytes := manifest.bytes, exact := manifest.exact, accountingKnown := true, hasSnapshot := true)
    case None =>
      var item :=
        if known.Some? then known.value else Item(store.id, store.modified, 0, false, false, false, false, false);
      item.(hasSnapshot := true, damaged := true, exact := item.exact && item.accountingKnown)
  }

  function LastAudit(audits: seq<Audit>, id: string): Option<Item> {
    if audits == [] then None
    else if audits[|audits| - 1].id == id then Some(FromAudit(audits[|audits| - 1]))
    else LastAudit(audits[..|audits| - 1], id)
  }

  function Stored(audits: seq<Audit>, stores: seq<Store>, id: string): Option<Item> {
    if stores == [] then LastAudit(audits, id)
    else
      var earlier := Stored(audits, stores[..|stores| - 1], id);
      if stores[|stores| - 1].id == id then Some(WithStore(earlier, stores[|stores| - 1])) else earlier
  }

  /** The record of this id, if there is one. */
  ghost predicate AuditOf(audits: seq<Audit>, id: string, audit: Option<Audit>) {
    match audit
    case None => forall i :: 0 <= i < |audits| ==> audits[i].id != id
    case Some(found) => found in audits && found.id == id
  }

  ghost predicate StoreOf(stores: seq<Store>, id: string, store: Option<Store>) {
    match store
    case None => forall i :: 0 <= i < |stores| ==> stores[i].id != id
    case Some(found) => found in stores && found.id == id
  }

  ghost predicate OncePerID(audits: seq<Audit>, stores: seq<Store>) {
    && (forall i, j :: 0 <= i < j < |audits| ==> audits[i].id != audits[j].id)
    && (forall i, j :: 0 <= i < j < |stores| ==> stores[i].id != stores[j].id)
  }

  /** Each field of an item, from the session's record and its directory: the start is the
      record's, if there is one; bytes are the manifest's, if it can be read. */
  function Described(id: string, audit: Option<Audit>, store: Option<Store>): Option<Item> {
    if audit.None? && store.None? then None
    else
      var manifest := if store.Some? then store.value.manifest else None;
      var startedAt :=
        if audit.Some? then audit.value.startedAt
        else if manifest.Some? then manifest.value.startedAt
        else store.value.modified;
      var bytes := if manifest.Some? then manifest.value.bytes else if audit.Some? then audit.value.bytes else 0;
      var known := manifest.Some? || (audit.Some? && audit.value.known);
      var exact :=
        if manifest.Some? then manifest.value.exact
        else audit.Some? && audit.value.exact && (store.Some? ==> audit.value.known);
      Some(Item(id, startedAt, bytes, exact, known, store.Some?, store.Some? && manifest.None?, audit.Some?))
  }

  /** What is known of a session, when every id has at most one record and one directory. */
  lemma StoredExactly(
    audits: seq<Audit>, stores: seq<Store>, id: string, audit: Option<Audit>, store: Option<Store>)
    requires OncePerID(audits, stores) && AuditOf(audits, id, audit) && StoreOf(stores, id, store)
    ensures Stored(audits, stores, id) == Described(id, audit, store)
  {
    OneAudit(audits, id, audit);
    OneStore(audits, stores, id, store);
    hide LastAudit, Stored;
  }

  lemma {:induction false} OneAudit(audits: seq<Audit>, id: string, audit: Option<Audit>)
    requires OncePerID(audits, []) && AuditOf(audits, id, audit)
    ensures LastAudit(audits, id) == if audit.None? then None else Some(FromAudit(audit.value))
  {
    if audits != [] {
      var last := |audits| - 1;
      OneAudit(audits[..last], id, if audits[last].id == id then None else audit);
    }
  }

  lemma {:induction false} OneStore(audits: seq<Audit>, stores: seq<Store>, id: string, store: Option<Store>)
    requires OncePerID([], stores) && StoreOf(stores, id, store)
    ensures
      Stored(audits, stores, id) ==
      if store.None? then LastAudit(audits, id) else Some(WithStore(LastAudit(audits, id), store.value))
  {
    if stores != [] {
      var last := |stores| - 1;
      OneStore(audits, stores[..last], id, if stores[last].id == id then None else store);
    }
  }

  function Lookup(items: map<string, Item>, id: string): Option<Item> {
    if id in items then Some(items[id]) else None
  }

  /** One item for each id that has an audit record or a snapshot directory. */
  method Gather(audits: seq<Audit>, stores: seq<Store>) returns (items: Option<map<string, Item>>)
    ensures items.None? <==> exists i :: 0 <= i < |audits| && !ValidID(audits[i].id)
    ensures items.Some? ==> forall id :: Lookup(items.value, id) == Stored(audits, stores, id)
  {
    var found: map<string, Item> := map[];
    for index := 0 to |audits|
      invariant forall i :: 0 <= i < index ==> ValidID(audits[i].id)
      invariant forall id :: Lookup(found, id) == LastAudit(audits[..index], id)
    {
      if !ValidID(audits[index].id) {
        return None;
      }
      assert audits[..index + 1][..index] == audits[..index];
      var audit := audits[index];
      found := found[audit.id :=
        Item(audit.id, audit.startedAt, audit.bytes, audit.exact, audit.known, false, false, true)];
    }
    assert audits[..|audits|] == audits;
    for index := 0 to |stores|
      invariant forall id :: Lookup(found, id) == Stored(audits, stores[..index], id)
    {
      assert stores[..index + 1][..index] == stores[..index];
      var store := stores[index];
      var known := store.id in found;
      if store.manifest.None? {
        var item :=
          if known then found[store.id] else Item(store.id, store.modified, 0, false, false, false, false, false);
        var exact := if item.accountingKnown then item.exact else false;
        found := found[store.id := item.(hasSnapshot := true, damaged := true, exact := exact)];
        continue;
      }
      var manifest := store.manifest.value;
      var item :=
        if known then found[store.id] else Item(store.id, manifest.startedAt, 0, false, false, false, false, false);
      found := found[store.id :=
        item.(bytes := manifest.bytes, exact := manifest.exact, accountingKnown := true, hasSnapshot := true)];
    }
    assert stores[..|stores|] == stores;
    items := Some(found);
  }

  lemma {:induction false} StoredID(audits: seq<Audit>, stores: seq<Store>, id: string)
    ensures Stored(audits, stores, id).Some? ==> Stored(audits, stores, id).value.id == id
  {
    if stores != [] {
      StoredID(audits, stores[..|stores| - 1], id);
    } else {
      AuditID(audits, id);
    }
  }

  lemma {:induction false} AuditID(audits: seq<Audit>, id: string)
    ensures LastAudit(audits, id).Some? ==> LastAudit(audits, id).value.id == id
  {
    if audits != [] {
      AuditID(audits[..|audits| - 1], id);
    }
  }

  /** Every stored session once, oldest first. */
  ghost predicate Inventory(audits: seq<Audit>, stores: seq<Store>, items: seq<Item>) {
    && Sorted(items, Older)
    && (forall i, j :: 0 <= i < j < |items| ==> items[i].id != items[j].id)
    && (forall i :: 0 <= i < |items| ==> Stored(audits, stores, items[i].id) == Some(items[i]))
    && forall id :: Stored(audits, stores, id).Some? ==> exists i :: 0 <= i < |items| && items[i].id == id
  }

  /** Plans over everything that is stored; invalid ids and negative caps are refused. */
  method PlanStored(audits: seq<Audit>, stores: seq<Store>, policy: Policy)
    returns (plan: Option<Plan>, ghost items: seq<Item>)
    ensures plan.None? <==> policy.cap < 0 || exists i :: 0 <= i < |audits| && !ValidID(audits[i].id)
    ensures plan.Some? ==>
      && Inventory(audits, stores, items)
      && plan.value.before == Recount(items)
      && plan.value.removals == Removals(items, policy, |items|)
      && plan.value.after.bytes == Recount(Remaining(items, policy, |items|)).bytes
      && plan.value.after.sessions == Recount(Remaining(items, policy, |items|)).sessions
      && plan.value.after.exact == plan.value.before.exact
  {
    items := [];
    var found := Gather(audits, stores);
    if policy.cap < 0 || found.None? {
      return None, [];
    }
    var ordered := InOrder(found.value, audits, stores);
    items := ordered;
    plan := PlanRetention(ordered, policy);
  }

  method InOrder(found: map<string, Item>, ghost audits: seq<Audit>, ghost stores: seq<Store>)
    returns (items: seq<Item>)
    requires forall id :: Lookup(found, id) == Stored(audits, stores, id)
    ensures Inventory(audits, stores, items)
  {
    hide Stored;
    var listed := Values(found, audits, stores);
    OlderOrder();
    items := Sort(listed, Older);
    StaysDistinct(listed, items, (item: Item) => item.id);
    forall i | 0 <= i < |items|
      ensures items[i] in listed
    {
      assert items[i] in multiset(items);
    }
    forall id | Stored(audits, stores, id).Some?
      ensures exists i :: 0 <= i < |items| && items[i].id == id
    {
      assert id in found;
      var i :| 0 <= i < |listed| && listed[i].id == id;
      assert listed[i] in multiset(listed);
      assert listed[i] in items;
    }
  }

  method Values(found: map<string, Item>, ghost audits: seq<Audit>, ghost stores: seq<Store>)
    returns (items: seq<Item>)
    requires forall id :: Lookup(found, id) == Stored(audits, stores, id)
    ensures DistinctBy(items, (item: Item) => item.id)
    ensures forall i :: 0 <= i < |items| ==> items[i].id in found && found[items[i].id] == items[i]
    ensures forall id :: id in found ==> exists i :: 0 <= i < |items| && items[i].id == id
  {
    hide Stored;
    items := [];
    var pending := found.Keys;
    while pending != {}
      invariant pending <= found.Keys
      invariant DistinctBy(items, (item: Item) => item.id)
      invariant forall i :: 0 <= i < |items| ==>
        items[i].id in found && items[i].id !in pending && found[items[i].id] == items[i]
      invariant forall id :: id in found && id !in pending ==> exists i :: 0 <= i < |items| && items[i].id == id
      decreases pending
    {
      var id :| id in pending;
      StoredID(audits, stores, id);
      assert Lookup(found, id) == Stored(audits, stores, id);
      ghost var earlier := items;
      items := items + [found[id]];
      assert items[|earlier|].id == id;
      assert forall i :: 0 <= i < |earlier| ==> items[i] == earlier[i];
      pending := pending - {id};
    }
  }
}
