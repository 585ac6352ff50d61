/** How a node's own advertisements prevail elsewhere: every change and every
    withdrawal is numbered above all copies, and copies that are renewed in time
    do not expire. */
module Renewal {
  import opened Routing
  import opened Routes
  import opened LinkState
  import opened Operations

  // ------------------------------------------------------------------ own numbers

  /** The operation announces the first listener of an endpoint. */
  predicate Announces(op: Operation, self: NodeId, table: Table, k: LsaKey) {
    op.AddEndpoint? && k == LsaKey(self, op.id) && op.info.kind != Node
    && !HasLocal(EntryOr(table, op.id, op.info.kind).routes)
  }

  /** Whatever changes an own record, but for a first announcement, gives it a higher
      number, and dates it. */
  lemma OwnNumbersGrow(op: Operation, self: NodeId, lifetime: nat, cost: map<NodeId, Cost>, db: Db, links: Links,
                       table: Table, now: nat, db': Db, table': Table, k: LsaKey)
    requires Results(op, self, lifetime, cost, db, links, table, now, db', table')
    requires KeysOk(db, links) && k in db && k in db' && k.origin == self && !Announces(op, self, table, k)
    ensures db'[k].lsa.key == k && !db'[k].lsa.dead
    ensures db'[k].lsa == db[k].lsa || (db[k].lsa.seq_ < db'[k].lsa.seq_ && db'[k].updatedAt == now)
  {
  }

  /** So a changed own record is taken by every other node that is not ahead of it. */
  lemma ChangeIsTaken(op: Operation, self: NodeId, lifetime: nat, cost: map<NodeId, Cost>, db: Db, links: Links,
                      table: Table, now: nat, db': Db, table': Table, k: LsaKey, other: NodeId, held: Db, later: nat)
    requires Results(op, self, lifetime, cost, db, links, table, now, db', table')
    requires KeysOk(db, links) && k in db && k in db' && k.origin == self && !Announces(op, self, table, k)
    requires db'[k].lsa != db[k].lsa
    requires other != self && (k in held ==> held[k].lsa.seq_ <= db[k].lsa.seq_)
    ensures Newer(held, db'[k].lsa) && Fresh(held, other, db'[k].lsa)
    ensures var held' := Handled(held, other, db'[k].lsa, later); k in held' && held'[k] == LsaRecord(db'[k].lsa, later)
  {
    OwnNumbersGrow(op, self, lifetime, cost, db, links, table, now, db', table', k);
  }

  /** The withdrawal of an endpoint removes its record at every other node that is not
      ahead of the origin. */
  lemma WithdrawalIsTaken(db: Db, db': Db, self: NodeId, id: EndpointId, links: Links, nextHop: map<NodeId, Link>,
                          before: seq<Outgoing>, after: seq<Outgoing>, m: Outgoing, other: NodeId, held: Db, later: nat)
    requires RemovalFlooded(db, db', self, id, true, links, nextHop, before, after) && m in after[|before|..]
    requires LsaKey(self, id) in db && db[LsaKey(self, id)].lsa.key == LsaKey(self, id)
    requires other != self && LsaKey(self, id) in held
    requires held[LsaKey(self, id)].lsa.seq_ <= db[LsaKey(self, id)].lsa.seq_
    ensures m.message.LsaMessage? && Fresh(held, other, m.message.lsa)
    ensures LsaKey(self, id) !in Handled(held, other, m.message.lsa, later)
  {
    var lsa := db[LsaKey(self, id)].lsa;
    WithdrawalOutdoes(lsa, links, nextHop, before, after, m);
  }

  /** And the farewell of a node removes all it has advertised. */
  lemma FarewellIsTaken(db: Db, self: NodeId, links: Links, nextHop: map<NodeId, Link>, before: seq<Outgoing>,
                        after: seq<Outgoing>, m: Outgoing, other: NodeId, held: Db, later: nat, k: LsaKey)
    requires SelfKey(self) in db && db[SelfKey(self)].lsa.key == SelfKey(self)
    requires NodeWithdrawn(db, self, links, nextHop, before, after) && m in after[|before|..]
    requires other != self && SelfKey(self) in held && held[SelfKey(self)].lsa.body.Router?
    requires held[SelfKey(self)].lsa.seq_ <= db[SelfKey(self)].lsa.seq_
    ensures m.message.LsaMessage? && Fresh(held, other, m.message.lsa)
    ensures k.origin == self ==> k !in Handled(held, other, m.message.lsa, later)
  {
    WithdrawalOutdoes(db[SelfKey(self)].lsa, links, nextHop, before, after, m);
  }

  /** What a flood of a withdrawal sends names the record and outdoes its number. */
  lemma WithdrawalOutdoes(lsa: Lsa, links: Links, nextHop: map<NodeId, Link>, before: seq<Outgoing>,
                          after: seq<Outgoing>, m: Outgoing)
    requires Appends(before, after, FloodBatch(links, nextHop, lsa.(dead := true, seq_ := lsa.seq_ + 1), None))
    requires m in after[|before|..]
    ensures m.message.LsaMessage?
    ensures m.message.lsa.key == lsa.key && m.message.lsa.dead && m.message.lsa.seq_ == lsa.seq_ + 1
  {
    SendsFiltered(links[m.conn], lsa.(dead := true, seq_ := lsa.seq_ + 1));
  }

  // --------------------------------------------------------------------- ageing

  /** An own record left alone since one refresh is renewed by the next, which comes
      when a third of the lifetime is over. */
  lemma RenewedByNext(db: Db, db': Db, self: NodeId, lifetime: nat, first: nat, next: nat, gone: set<LsaKey>,
                      gone': set<LsaKey>, mid: Db, k: LsaKey)
    requires k in db && k.origin == self && db[k].updatedAt <= first
    requires Purged(Refreshed(db, self, lifetime, first), lifetime, first, mid, gone)
    requires first + lifetime / 3 < next && Purged(Refreshed(mid, self, lifetime, next), lifetime, next, db', gone')
    ensures k in mid && k in db' && db'[k].lsa.seq_ == mid[k].lsa.seq_ + 1 && db'[k].updatedAt == next
  {
    RefreshLeavesYoung(db, self, lifetime, first, mid, gone);
    RefreshLeavesYoung(mid, self, lifetime, next, db', gone');
  }

  /** A purge takes a record exactly if one is stale, only a stale one, and just one. */
  lemma OneStaleGoes(db: Db, lifetime: nat, now: nat, db': Db, gone: set<LsaKey>)
    requires Purged(db, lifetime, now, db', gone)
    ensures db' == db <==> forall k :: k in db ==> now <= db[k].updatedAt + lifetime
    ensures forall k :: k in db && k !in db' ==> db[k].updatedAt + lifetime < now
    ensures |db| - 1 <= |db'| <= |db| && forall k :: k in db' ==> k in db && db'[k] == db[k]
  {
    if k :| Stale(db, lifetime, now, k) && db' == db - {k} {
      assert db'.Keys == db.Keys - {k};
      assert k !in db';
    } else {
      assert forall k :: k in db ==> !Stale(db, lifetime, now, k);
    }
  }

  // One operation of a node, and all it depends on.
  datatype Turn = Turn(op: Operation, cost: map<NodeId, Cost>, links: Links, now: nat)
  datatype Page = Page(db: Db, table: Table)

  /** The operations of one node, one after another, while the clock does not go back. */
  ghost predicate Diary(self: NodeId, lifetime: nat, pages: seq<Page>, turns: seq<Turn>) {
    && |pages| == |turns| + 1
    && (forall i: nat {:trigger TurnAt(self, lifetime, pages, turns, i)} :: TurnAt(self, lifetime, pages, turns, i))
    && forall i, j :: 0 <= i <= j < |turns| ==> turns[i].now <= turns[j].now
  }

  ghost predicate TurnAt(self: NodeId, lifetime: nat, pages: seq<Page>, turns: seq<Turn>, i: nat) {
    i < |turns| && i + 1 < |pages| ==>
      var t := turns[i];
      Results(t.op, self, lifetime, t.cost, pages[i].db, t.links, pages[i].table, t.now, pages[i + 1].db,
              pages[i + 1].table)
  }

  /** A newer copy of the record comes in. */
  predicate Renews(page: Page, t: Turn, k: LsaKey) {
    t.op.HandleLsa? && t.op.lsa.key == k && !t.op.lsa.dead && Newer(page.db, t.op.lsa)
  }

  /** Nothing withdraws the record, and the node is not shut down. */
  ghost predicate Spares(page: Page, t: Turn, k: LsaKey) {
    !t.op.Shutdown? && (t.op.HandleLsa? ==> !Erases(page.db, t.op.lsa, k))
  }

  /** Every tick from turn i on finds a copy that is at most a lifetime old. */
  ghost predicate InTime(lifetime: nat, pages: seq<Page>, turns: seq<Turn>, k: LsaKey, i: nat, m: nat)
    requires m < |turns| < |pages| && i < |pages| && k in pages[i].db
  {
    turns[m].op.Tick? ==>
      || turns[m].now <= pages[i].db[k].updatedAt + lifetime
      || exists l :: i <= l < m && Renews(pages[l], turns[l], k) && turns[m].now <= turns[l].now + lifetime
  }

  /** A foreign record that is not withdrawn and renewed in time does not expire, and is
      as young as its last renewal. */
  lemma {:induction false} NeverExpires(self: NodeId, lifetime: nat, pages: seq<Page>, turns: seq<Turn>, k: LsaKey,
                                        i: nat, j: nat)
    requires Diary(self, lifetime, pages, turns) && i <= j <= |turns| && k in pages[i].db && k.origin != self
    requires forall m :: i <= m < j ==> pages[i].db[k].updatedAt <= turns[m].now
    requires forall m :: i <= m < j ==> Spares(pages[m], turns[m], k) && InTime(lifetime, pages, turns, k, i, m)
    ensures k in pages[j].db && pages[i].db[k].updatedAt <= pages[j].db[k].updatedAt
    ensures forall l :: i <= l < j && Renews(pages[l], turns[l], k) ==> turns[l].now <= pages[j].db[k].updatedAt
    decreases j
  {
    if i < j {
      var m := j - 1;
      NeverExpires(self, lifetime, pages, turns, k, i, m);
      assert TurnAt(self, lifetime, pages, turns, m) && Spares(pages[m], turns[m], k);
      assert InTime(lifetime, pages, turns, k, i, m);
      TurnKeeps(self, lifetime, pages[m], turns[m], pages[j], k);
    }
  }

  lemma TurnKeeps(self: NodeId, lifetime: nat, page: Page, t: Turn, page': Page, k: LsaKey)
    requires Results(t.op, self, lifetime, t.cost, page.db, t.links, page.table, t.now, page'.db, page'.table)
    requires k in page.db && k.origin != self && Spares(page, t, k)
    requires t.op.Tick? ==> t.now <= page.db[k].updatedAt + lifetime
    ensures k in page'.db
    ensures page'.db[k].updatedAt == if Renews(page, t, k) then t.now else page.db[k].updatedAt
  {
    match t.op
    case HandleLsa(lsa, _) => ErasedExactly(page.db, self, lsa, t.now, k);
    case Tick =>
      if page'.db != page.db {
        var gone :| Purged(Refreshed(page.db, self, lifetime, t.now), lifetime, t.now, page'.db, gone);
      }
    case _ =>
  }
}
