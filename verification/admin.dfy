/** Promotion moderation, reachable only by ADMIN callers (see module
    Routes): the moderation queue and the decision on one promotion. */
module Admin {
  import opened Basics
  import opened Model

  // ---------------------------------------------------------------------
  // GET /promotions

  /** The position of a status in the declaration order of the status
      enumeration, by which the database sorts it. */
  function StatusRank(s: PromoStatus): nat {
    match s
    case Pending => 0
    case PromoActive => 1
    case Rejected => 2
    case Stopped => 3
  }

  /** `orderBy: [{ status: "asc" }, { priority: "desc" }, { createdAt: "desc" }]`:
      `a` may be listed before `b`. Creation order is id order. */
  predicate ListedBefore(a: Promotion, b: Promotion) {
    || StatusRank(a.status) < StatusRank(b.status)
    || (StatusRank(a.status) == StatusRank(b.status) &&
          (a.priority > b.priority || (a.priority == b.priority && a.id >= b.id)))
  }

  predicate QueueOrdered(ps: seq<Promotion>) {
    forall i, j :: 0 <= i < j < |ps| ==> ListedBefore(ps[i], ps[j])
  }

  function InsertInQueue(x: Promotion, ps: seq<Promotion>): (r: seq<Promotion>)
    requires QueueOrdered(ps)
    ensures QueueOrdered(r)
    ensures multiset(r) == multiset(ps) + multiset{x}
  {
    if |ps| == 0 || ListedBefore(x, ps[0]) then
      InsertInQueueFront(x, ps);
      [x] + ps
    else
      var rest := InsertInQueue(x, ps[1..]);
      InsertInQueueHead(x, ps, rest);
      [ps[0]] + rest
  }

  lemma InsertInQueueFront(x: Promotion, ps: seq<Promotion>)
    requires QueueOrdered(ps)
    requires |ps| == 0 || ListedBefore(x, ps[0])
    ensures QueueOrdered([x] + ps)
  {
    forall j | 0 <= j < |ps| ensures ListedBefore(x, ps[j]) {
      if j > 0 {
        assert ListedBefore(ps[0], ps[j]);
      }
    }
  }

  lemma InsertInQueueHead(x: Promotion, ps: seq<Promotion>, rest: seq<Promotion>)
    requires QueueOrdered(ps) && |ps| > 0 && !ListedBefore(x, ps[0])
    requires QueueOrdered(rest)
    requires multiset(rest) == multiset(ps[1..]) + multiset{x}
    ensures QueueOrdered([ps[0]] + rest)
    ensures multiset([ps[0]] + rest) == multiset(ps) + multiset{x}
  {
    forall i | 0 <= i < |rest| ensures ListedBefore(ps[0], rest[i]) {
      assert rest[i] in multiset(rest);
      if rest[i] != x {
        assert rest[i] in ps[1..];
      }
    }
    assert ps == [ps[0]] + ps[1..];
  }

  function SortQueue(ps: seq<Promotion>): (r: seq<Promotion>)
    ensures QueueOrdered(r)
    ensures multiset(r) == multiset(ps)
  {
    if |ps| == 0 then []
    else
      var init := ps[..|ps| - 1];
      assert ps == init + [ps[|ps| - 1]];
      InsertInQueue(ps[|ps| - 1], SortQueue(init))
  }

  /** The moderation queue: the first 200 promotions of every store in
      queue order. */
  function ListForAdmin(db: Db): (r: seq<Promotion>)
    ensures |r| == Min(200, |db.promotions|)
    ensures QueueOrdered(r)
    ensures multiset(r) <= multiset(db.promotions)
    ensures |db.promotions| <= 200 ==> multiset(r) == multiset(db.promotions)
  {
    var s := SortQueue(db.promotions);
    var k := Min(200, |s|);
    assert s == s[..k] + s[k..];
    assert multiset(s) == multiset(s[..k]) + multiset(s[k..]);
    s[..k]
  }

  /** The queue is the head of the whole table in queue order: every
      promotion left out may be listed after every promotion shown. */
  lemma ListForAdminTop(db: Db)
    ensures forall p, q :: p in db.promotions && p !in ListForAdmin(db) && q in ListForAdmin(db) ==>
      ListedBefore(q, p)
  {
    var s := SortQueue(db.promotions);
    var k := Min(200, |s|);
    var r := ListForAdmin(db);
    assert r == s[..k];
    forall p, q | p in db.promotions && p !in r && q in r ensures ListedBefore(q, p) {
      assert p in multiset(db.promotions);
      assert p in s;
      var j :| 0 <= j < |s| && s[j] == p;
      var i :| 0 <= i < |r| && r[i] == q;
      assert s[i] == q;
      assert forall t :: 0 <= t < k ==> s[t] != p by {
        forall t | 0 <= t < k ensures s[t] != p {
          assert s[..k][t] == s[t];
        }
      }
    }
  }

  // ---------------------------------------------------------------------
  // POST /promotions/:id/decision

  /** `promotion.findUnique({ where: { id } })`: the index, or |ps|. */
  function PromotionIndex(ps: seq<Promotion>, id: Id): (i: nat)
    ensures i <= |ps|
    ensures i < |ps| ==> ps[i].id == id
    ensures forall k :: 0 <= k < i ==> ps[k].id != id
  {
    if |ps| == 0 then 0
    else if ps[0].id == id then 0
    else 1 + PromotionIndex(ps[1..], id)
  }

  /** The reject reason a decision records. */
  function ReasonFor(status: PromoStatus, reason: Option<string>): (r: Option<string>)
    ensures status == Rejected ==> r == Some(reason.GetOr("No reason provided"))
    ensures status != Rejected ==> r.None?
  {
    if status == Rejected then Some(reason.GetOr("No reason provided")) else None
  }

  /** An admin's decision on a promotion, answering its id and new status.
      PENDING is not a decision the body may ask for; an unknown id is 404
      and changes nothing. The current status is not consulted: the new
      status, the deciding admin and the reject reason (only for REJECTED,
      "No reason provided" when none is given) overwrite the record. */
  function Decide(db: Db, id: Id, adminId: Id, status: PromoStatus, reason: Option<string>): (r: Outcome<(Id, PromoStatus)>)
    ensures status == Pending ==> r == Outcome(db, Err(ValidationFailed))
    ensures status != Pending && PromotionIndex(db.promotions, id) == |db.promotions| ==>
      r == Outcome(db, Err(Fail(404, "Promotion not found")))
    ensures r.result.Ok? <==> status != Pending && exists p :: p in db.promotions && p.id == id
    ensures r.result.Ok? ==>
      var k := PromotionIndex(db.promotions, id);
      && r.result.value == (id, status)
      && r.db == db.(promotions := db.promotions[k :=
           db.promotions[k].(status := status, approvedById := Some(adminId), rejectReason := ReasonFor(status, reason))])
  {
    if status == Pending then Outcome(db, Err(ValidationFailed))
    else
      var k := PromotionIndex(db.promotions, id);
      if k == |db.promotions| then Outcome(db, Err(Fail(404, "Promotion not found")))
      else
        var p := db.promotions[k].(status := status, approvedById := Some(adminId), rejectReason := ReasonFor(status, reason));
        Outcome(db.(promotions := db.promotions[k := p]), Ok((p.id, p.status)))
  }

  /** After a decision the record holds the decided status (never PENDING)
      and the deciding admin; every other promotion is as before. */
  lemma DecisionEffect(db: Db, id: Id, adminId: Id, status: PromoStatus, reason: Option<string>)
    requires Decide(db, id, adminId, status, reason).result.Ok?
    ensures var r := Decide(db, id, adminId, status, reason);
      && |r.db.promotions| == |db.promotions|
      && (exists k :: 0 <= k < |r.db.promotions| && r.db.promotions[k].id == id
            && r.db.promotions[k].status == status && status != Pending
            && r.db.promotions[k].approvedById == Some(adminId)
            && r.db.promotions[k].rejectReason == ReasonFor(status, reason))
      && (forall p :: p in db.promotions && p.id != id ==> p in r.db.promotions)
  {
    var r := Decide(db, id, adminId, status, reason);
    var k := PromotionIndex(db.promotions, id);
    assert r.db.promotions[k].id == id;
    forall p | p in db.promotions && p.id != id ensures p in r.db.promotions {
      var j :| 0 <= j < |db.promotions| && db.promotions[j] == p;
      assert r.db.promotions[j] == p;
    }
  }

  /** A decision may be revised: deciding again overwrites the first
      decision entirely, and repeating the same decision changes nothing. */
  lemma DecisionOverwrites(db: Db, id: Id, admin1: Id, s1: PromoStatus, reason1: Option<string>,
                           admin2: Id, s2: PromoStatus, reason2: Option<string>)
    requires Decide(db, id, admin1, s1, reason1).result.Ok?
    requires s2 != Pending
    ensures var once := Decide(db, id, admin1, s1, reason1);
      Decide(once.db, id, admin2, s2, reason2) == Decide(db, id, admin2, s2, reason2)
  {
    var once := Decide(db, id, admin1, s1, reason1);
    var k := PromotionIndex(db.promotions, id);
    PromotionIndexKept(db.promotions, once.db.promotions, id, k);
    assert once.db.promotions[k := db.promotions[k].(status := s2, approvedById := Some(admin2), rejectReason := ReasonFor(s2, reason2))]
        == db.promotions[k := db.promotions[k].(status := s2, approvedById := Some(admin2), rejectReason := ReasonFor(s2, reason2))];
  }

  lemma DecisionIdempotent(db: Db, id: Id, adminId: Id, status: PromoStatus, reason: Option<string>)
    requires Decide(db, id, adminId, status, reason).result.Ok?
    ensures var once := Decide(db, id, adminId, status, reason);
      Decide(once.db, id, adminId, status, reason) == once
  {
    DecisionOverwrites(db, id, adminId, status, reason, adminId, status, reason);
  }

  lemma PromotionIndexKept(a: seq<Promotion>, b: seq<Promotion>, id: Id, k: nat)
    requires k == PromotionIndex(a, id) < |a|
    requires |b| == |a| && b[k].id == id
    requires forall j :: 0 <= j < k ==> b[j] == a[j]
    ensures PromotionIndex(b, id) == k
  {
  }
}
