/** A bounded history of one address: pages of transactions and the counterparties they add up to. */
module BitcoinHistory {
  import opened Common
  import opened Bytes
  import opened Sorting
  import opened BitcoinTx

  const MAX_PAGES: nat := 5
  const PAGE_SIZE: nat := 25
  const MAX_TRANSACTIONS: nat := 100
  const MAX_COUNTERPARTIES: nat := 256

  // ----- counterparties

  /** One appearance of an address. */
  datatype Sighting = Sighting(time: Option<int>, direction: Direction, value: Option<int>)

  datatype Peer = Peer(count: nat, direction: Direction, value: Option<int>, first: Option<int>, last: Option<int>)

  /** The appearances of `a` among the edges of one transaction. */
  function EdgeSightings(time: Option<int>, edges: seq<Edge>, a: Addr): seq<Sighting> {
    if edges == [] then []
    else
      var e := edges[|edges| - 1];
      EdgeSightings(time, edges[..|edges| - 1], a) +
      (if e.address == a then [Sighting(time, e.direction, e.value)] else [])
  }

  function SightingPart(a: Addr): Observed -> seq<Sighting> { (o: Observed) => EdgeSightings(o.tx.time, o.edges, a) }

  function Sightings(txs: seq<Observed>, a: Addr): seq<Sighting> { FlatMap(txs, SightingPart(a)) }

  function Amount(s: Sighting): int { if s.value.Some? then s.value.value else 0 }

  function SumOf(list: seq<Sighting>): int {
    if list == [] then 0 else SumOf(list[..|list| - 1]) + Amount(list[|list| - 1])
  }

  /** `t` is an extreme of the known times: none is before it, or with `latest` after it. */
  ghost predicate IsExtreme(list: seq<Sighting>, t: Option<int>, latest: bool) {
    && (t.None? <==> forall s | s in list :: s.time.None?)
    && (t.Some? ==> exists s | s in list :: s.time == t)
    && (t.Some? ==>
        forall s | s in list && s.time.Some? :: if latest then s.time.value <= t.value else t.value <= s.time.value)
  }

  ghost predicate Uniform(list: seq<Sighting>, d: Direction) { forall s | s in list :: s.direction == d }

  /** What all appearances of an address add up to. */
  ghost predicate IsPeer(list: seq<Sighting>, p: Peer) {
    && p.count == |list|
    && (p.value.None? <==> exists s | s in list :: s.value.None?)
    && (p.value.Some? ==> p.value.value == SumOf(list))
    && (Uniform(list, p.direction) || (p.direction == Mixed && forall d :: !Uniform(list, d)))
    && IsExtreme(list, p.first, false) && IsExtreme(list, p.last, true)
  }

  /** The update of a counterparty record for one more edge. */
  function Sighted(p: Peer, s: Sighting): Peer {
    Peer(
      p.count + 1,
      if p.direction != s.direction then Mixed else p.direction,
      if s.value.None? || p.value.None? then None else Some(p.value.value + s.value.value),
      if s.time.Some? && (p.first.None? || s.time.value < p.first.value) then s.time else p.first,
      if s.time.Some? && (p.last.None? || s.time.value > p.last.value) then s.time else p.last)
  }

  function NewPeer(d: Direction): Peer { Peer(0, d, Some(0), None, None) }

  lemma NewIsPeer(d: Direction)
    ensures IsPeer([], NewPeer(d))
  {
  }

  lemma InWith<T>(list: seq<T>, x: T)
    ensures forall y :: y in list + [x] <==> y in list || y == x
  {
  }

  lemma ExtremeNext(list: seq<Sighting>, s: Sighting, t: Option<int>, latest: bool)
    requires IsExtreme(list, t, latest)
    ensures IsExtreme(list + [s],
                      if s.time.Some? &&
                         (t.None? || (if latest then s.time.value > t.value else s.time.value < t.value))
                      then s.time else t,
                      latest)
  {
    InWith(list, s);
  }

  lemma DirectionNext(list: seq<Sighting>, s: Sighting, d: Direction)
    requires s.direction != Mixed && (Uniform(list, d) || (d == Mixed && forall c :: !Uniform(list, c)))
    requires list == [] ==> d == s.direction
    ensures var e := if d != s.direction then Mixed else d;
            Uniform(list + [s], e) || (e == Mixed && forall c :: !Uniform(list + [s], c))
  {
    InWith(list, s);
    if list != [] && d != s.direction {
      assert list[0] in list;
      forall c ensures !Uniform(list + [s], c) {
        if Uniform(list + [s], c) {
          assert Uniform(list, c) && c == s.direction;
        }
      }
    }
  }

  lemma PeerNext(list: seq<Sighting>, s: Sighting, p: Peer)
    requires IsPeer(list, p) && s.direction != Mixed && (list == [] ==> p.direction == s.direction)
    ensures IsPeer(list + [s], Sighted(p, s))
  {
    InWith(list, s);
    assert (list + [s])[..|list|] == list;
    ExtremeNext(list, s, p.first, false);
    ExtremeNext(list, s, p.last, true);
    DirectionNext(list, s, p.direction);
  }

  // ----- what is added up does not depend on the order

  lemma {:induction false} SumSplit(a: seq<Sighting>, b: seq<Sighting>)
    ensures SumOf(a + b) == SumOf(a) + SumOf(b)
    decreases |b|
  {
    if b == [] {
      assert a + b == a;
    } else {
      var n := |b| - 1;
      SumSplit(a, b[..n]);
      assert (a + b)[..|a + b| - 1] == a + b[..n];
    }
  }

  lemma SumWithout(s: seq<Sighting>, j: nat, rest: seq<Sighting>)
    requires j < |s| && rest == s[..j] + s[j + 1..]
    ensures SumOf(s) == SumOf(rest) + Amount(s[j])
  {
    var one := [s[j]];
    assert s == (s[..j] + one) + s[j + 1..];
    SumSplit(s[..j] + one, s[j + 1..]);
    SumSplit(s[..j], one);
    SumSplit(s[..j], s[j + 1..]);
    assert one[..0] == [];
  }

  lemma {:induction false} SumPermuted(a: seq<Sighting>, b: seq<Sighting>)
    requires multiset(a) == multiset(b)
    ensures SumOf(a) == SumOf(b)
    decreases |a|
  {
    if a == [] {
      assert |multiset(b)| == 0;
    } else {
      var j := Position(b, a[0], a);
      var b' := b[..j] + b[j + 1..];
      WithoutSame(a, 0, b, j);
      assert a[..0] + a[0 + 1..] == a[1..];
      SumPermuted(a[1..], b');
      SumWithout(a, 0, a[1..]);
      SumWithout(b, j, b');
    }
  }

  lemma ExtremeUnique(a: seq<Sighting>, b: seq<Sighting>, s: Option<int>, t: Option<int>, latest: bool)
    requires forall x :: x in a <==> x in b
    requires IsExtreme(a, s, latest) && IsExtreme(b, t, latest)
    ensures s == t
  {
    if s.Some? && t.Some? {
      var x :| x in a && x.time == s;
      var y :| y in b && y.time == t;
      assert x in b && y in a;
    }
  }

  lemma PeerUnique(a: seq<Sighting>, b: seq<Sighting>, p: Peer, q: Peer)
    requires multiset(a) == multiset(b) && a != [] && IsPeer(a, p) && IsPeer(b, q)
    ensures p == q
  {
    SameElements(a, b);
    SumPermuted(a, b);
    assert |a| == |multiset(a)| && |b| == |multiset(b)|;
    ExtremeUnique(a, b, p.first, q.first, false);
    ExtremeUnique(a, b, p.last, q.last, true);
    assert a[0] in a && a[0] in b;
    assert forall d :: Uniform(a, d) <==> Uniform(b, d);
  }

  // ----- the counterparty loop

  function SoFar(txs: seq<Observed>, time: Option<int>, edges: seq<Edge>, a: Addr): seq<Sighting> {
    Sightings(txs, a) + EdgeSightings(time, edges, a)
  }

  /** The peers after the transactions `txs` and the edges `edges` of one more. */
  ghost predicate Tallied(txs: seq<Observed>, time: Option<int>, edges: seq<Edge>, peers: map<Addr, Peer>) {
    forall a :: (a in peers <==> SoFar(txs, time, edges, a) != []) &&
        (a in peers ==> IsPeer(SoFar(txs, time, edges, a), peers[a]))
  }

  function Tally(peers: map<Addr, Peer>, time: Option<int>, e: Edge): map<Addr, Peer> {
    var p := if e.address in peers then peers[e.address] else NewPeer(e.direction);
    peers[e.address := Sighted(p, Sighting(time, e.direction, e.value))]
  }

  lemma SoFarNext(txs: seq<Observed>, time: Option<int>, edges: seq<Edge>, e: Edge, a: Addr)
    ensures SoFar(txs, time, edges + [e], a) ==
            if e.address == a then SoFar(txs, time, edges, a) + [Sighting(time, e.direction, e.value)]
            else SoFar(txs, time, edges, a)
  {
    assert (edges + [e])[..|edges|] == edges;
    assert EdgeSightings(time, edges, a) + [] == EdgeSightings(time, edges, a);
  }

  lemma TallyNext(txs: seq<Observed>, time: Option<int>, edges: seq<Edge>, e: Edge, peers: map<Addr, Peer>)
    requires Tallied(txs, time, edges, peers) && e.direction != Mixed
    ensures Tallied(txs, time, edges + [e], Tally(peers, time, e))
  {
    var after := Tally(peers, time, e);
    forall a
      ensures a in after <==> SoFar(txs, time, edges + [e], a) != []
      ensures a in after ==> IsPeer(SoFar(txs, time, edges + [e], a), after[a])
    {
      SoFarNext(txs, time, edges, e, a);
      if a == e.address { TallyAt(SoFar(txs, time, edges, a), peers, a, Sighting(time, e.direction, e.value)); }
    }
  }

  lemma TallyAt(list: seq<Sighting>, peers: map<Addr, Peer>, a: Addr, s: Sighting)
    requires (a in peers <==> list != []) && (a in peers ==> IsPeer(list, peers[a])) && s.direction != Mixed
    ensures IsPeer(list + [s], Sighted(if a in peers then peers[a] else NewPeer(s.direction), s))
  {
    NewIsPeer(s.direction);
    PeerNext(list, s, if a in peers then peers[a] else NewPeer(s.direction));
  }

  lemma TallyTransaction(txs: seq<Observed>, o: Observed, peers: map<Addr, Peer>, next: Option<int>)
    requires Tallied(txs, o.tx.time, o.edges, peers)
    ensures Tallied(txs + [o], next, [], peers)
  {
    forall a ensures SoFar(txs + [o], next, [], a) == SoFar(txs, o.tx.time, o.edges, a) {
      FlatMapNext(txs, o, SightingPart(a));
    }
  }

  /** No edge of a normalised transaction is mixed. */
  predicate Plain(o: Observed) { forall i | 0 <= i < |o.edges| :: o.edges[i].direction != Mixed }

  /** The peers of a list of transactions. */
  ghost predicate Peers(txs: seq<Observed>, peers: map<Addr, Peer>) {
    forall a :: (a in peers <==> Sightings(txs, a) != []) && (a in peers ==> IsPeer(Sightings(txs, a), peers[a]))
  }

  /** The inner loop: the edges of one transaction. */
  method AddEdges(ghost before: seq<Observed>, o: Observed, was: map<Addr, Peer>) returns (peers: map<Addr, Peer>)
    requires Tallied(before, None, [], was) && Plain(o)
    ensures Tallied(before + [o], None, [], peers)
  {
    peers := was;
    Retime(before, None, o.tx.time, peers);
    var j := 0;
    while j < |o.edges|
      invariant 0 <= j <= |o.edges| && Tallied(before, o.tx.time, o.edges[..j], peers)
    {
      assert o.edges[..j + 1] == o.edges[..j] + [o.edges[j]];
      TallyNext(before, o.tx.time, o.edges[..j], o.edges[j], peers);
      peers := Tally(peers, o.tx.time, o.edges[j]);
      j := j + 1;
    }
    assert o.edges[..|o.edges|] == o.edges;
    TallyTransaction(before, o, peers, None);
  }

  /** The counterparty loops of `project`. */
  method Aggregate(ordered: seq<Observed>) returns (peers: map<Addr, Peer>)
    requires forall i | 0 <= i < |ordered| :: Plain(ordered[i])
    ensures Peers(ordered, peers)
  {
    peers := map[];
    var i := 0;
    while i < |ordered|
      invariant 0 <= i <= |ordered| && Tallied(ordered[..i], None, [], peers)
    {
      peers := AddEdges(ordered[..i], ordered[i], peers);
      assert ordered[..i + 1] == ordered[..i] + [ordered[i]];
      i := i + 1;
    }
    assert ordered[..|ordered|] == ordered;
    TalliedAll(ordered, peers);
  }

  lemma TalliedAll(txs: seq<Observed>, peers: map<Addr, Peer>)
    requires Tallied(txs, None, [], peers)
    ensures Peers(txs, peers)
  {
    assert forall a :: SoFar(txs, None, [], a) == Sightings(txs, a);
  }

  lemma Retime(txs: seq<Observed>, s: Option<int>, t: Option<int>, peers: map<Addr, Peer>)
    requires Tallied(txs, s, [], peers)
    ensures Tallied(txs, t, [], peers)
  {
    assert forall a :: SoFar(txs, s, [], a) == SoFar(txs, t, [], a);
  }

  /** The counterparties of a set of transactions do not depend on the order they are added up in. */
  lemma PeersPermuted(a: seq<Observed>, b: seq<Observed>, p: map<Addr, Peer>, q: map<Addr, Peer>)
    requires multiset(a) == multiset(b) && Peers(a, p) && Peers(b, q)
    ensures p == q
  {
    forall x ensures (x in p <==> x in q) && (x in p && x in q ==> p[x] == q[x]) {
      FlatMapPermuted(a, b, SightingPart(x));
      var s, t := Sightings(a, x), Sightings(b, x);
      assert |s| == |multiset(s)| && |t| == |multiset(t)|;
      if x in p && x in q { PeerUnique(s, t, p[x], q[x]); }
    }
  }

  // ----- totals stay far below 64 bits

  /** Distinct edges with values within the supply, as normalisation leaves them. */
  ghost predicate Bounded(o: Observed) {
    && Ascends(o.edges, EdgeLess)
    && forall i | 0 <= i < |o.edges| && o.edges[i].value.Some? :: 0 <= o.edges[i].value.value <= MAX_MONEY
  }

  lemma {:induction false} EdgeOnce(time: Option<int>, edges: seq<Edge>, a: Addr)
    requires forall i, j | 0 <= i < j < |edges| :: edges[i].address != edges[j].address
    requires forall i | 0 <= i < |edges| && edges[i].value.Some? :: 0 <= edges[i].value.value <= MAX_MONEY
    ensures var list := EdgeSightings(time, edges, a);
            |list| <= 1 && 0 <= SumOf(list) <= MAX_MONEY &&
                (list != [] ==> exists i | 0 <= i < |edges| :: edges[i].address == a)
    decreases |edges|
  {
    if edges != [] {
      var n := |edges| - 1;
      EdgeOnce(time, edges[..n], a);
      var front := EdgeSightings(time, edges[..n], a);
      if edges[n].address == a {
        assert front == [];
        assert EdgeSightings(time, edges, a)[..0] == [];
      } else {
        assert EdgeSightings(time, edges, a) == front;
      }
    }
  }

  lemma OneBounded(o: Observed, a: Addr)
    requires Bounded(o)
    ensures var list := EdgeSightings(o.tx.time, o.edges, a); |list| <= 1 && 0 <= SumOf(list) <= MAX_MONEY
  {
    LessOrder();
    forall i, j | 0 <= i < j < |o.edges| ensures o.edges[i].address != o.edges[j].address {
      assert EdgeLess(o.edges[i], o.edges[j]);
    }
    EdgeOnce(o.tx.time, o.edges, a);
  }

  lemma {:induction false} SightingsBounded(txs: seq<Observed>, a: Addr)
    requires forall i | 0 <= i < |txs| :: Bounded(txs[i])
    ensures |Sightings(txs, a)| <= |txs| && 0 <= SumOf(Sightings(txs, a)) <= |txs| * MAX_MONEY
    decreases |txs|
  {
    if txs != [] {
      var n := |txs| - 1;
      SightingsBounded(txs[..n], a);
      OneBounded(txs[n], a);
      SumSplit(Sightings(txs[..n], a), EdgeSightings(txs[n].tx.time, txs[n].edges, a));
    }
  }

  lemma ObservedBounded(normal: Normaliser, w: Wire, target: Addr, o: Observed)
    requires Acceptable(normal, w, target)
    requires IsObserved(Spent(normal, w.inputs), CoinsOf(normal, w.outputs), IsCoinbase(w.inputs), w, target, o)
    ensures Bounded(o) && Plain(o)
  {
    var ins, outs := Spent(normal, w.inputs), CoinsOf(normal, w.outputs);
    forall i | 0 <= i < |o.edges|
      ensures o.edges[i].direction != Mixed
      ensures o.edges[i].value.Some? ==> 0 <= o.edges[i].value.value <= MAX_MONEY
    {
      assert o.edges[i] in o.edges;
      TotalsBounded(outs, o.edges[i].address);
      TotalsBounded(outs, target);
    }
  }

  /** A counterparty's total over a retained history fits 64 bits with room to spare. */
  lemma PeerFits(txs: seq<Observed>, peers: map<Addr, Peer>, a: Addr)
    requires |txs| <= MAX_TRANSACTIONS && Peers(txs, peers) && a in peers
    requires forall i | 0 <= i < |txs| :: Bounded(txs[i])
    ensures 1 <= peers[a].count <= |txs|
    ensures peers[a].value.Some? ==> 0 <= peers[a].value.value <= MAX_TRANSACTIONS * MAX_MONEY < 0x8000_0000_0000_0000
  {
    SightingsBounded(txs, a);
  }

  // ----- pages

  type Id = seq<byte>

  /** `o` is what `w` shows of the target. */
  ghost predicate IsTx(normal: Normaliser, target: Addr, w: Wire, o: Observed) {
    && Acceptable(normal, w, target)
    && IsObserved(Spent(normal, w.inputs), CoinsOf(normal, w.outputs), IsCoinbase(w.inputs), w, target, o)
  }

  lemma TxUnique(normal: Normaliser, target: Addr, w: Wire, o: Observed, p: Observed)
    requires IsTx(normal, target, w, o) && IsTx(normal, target, w, p)
    ensures o == p
  {
    LessOrder();
    forall a, b ensures !(EdgeLess(a, b) && EdgeLess(b, a)) {
      assert !(Less(a.address, b.address) && Less(b.address, a.address));
    }
    forall a, b, c | !EdgeLess(b, a) && !EdgeLess(c, b) ensures !EdgeLess(c, a) {
      assert !Less(b.address, a.address) && !Less(c.address, b.address);
    }
    AscendingUnique(o.edges, p.edges, EdgeLess);
  }

  /** A relation between transactions and what they show; the paging only needs that it is a function. */
  type View = (Wire, Observed) -> bool

  ghost predicate Listed(page: seq<Wire>, id: Id) { exists i | 0 <= i < |page| :: page[i].id == id }

  /** `batch` holds what the page's transactions show, each id once. */
  ghost predicate Holds(shows: View, page: seq<Wire>, batch: map<Id, Observed>) {
    && (forall id :: id in batch <==> Listed(page, id))
    && forall i | 0 <= i < |page| :: page[i].id in batch && shows(page[i], batch[page[i].id])
  }

  ghost predicate Agrees(batch: map<Id, Observed>, txs: map<Id, Observed>) {
    forall id | id in batch && id in txs :: batch[id] == txs[id]
  }

  /** `shows` is the view of the target. */
  ghost predicate Views(normal: Normaliser, target: Addr, shows: View) {
    forall w, o {:trigger IsTx(normal, target, w, o)} :: shows(w, o) <==> IsTx(normal, target, w, o)
  }

  ghost predicate Functional(shows: View) { forall w, o, p :: shows(w, o) && shows(w, p) ==> o == p }

  lemma ViewsFunctional(normal: Normaliser, target: Addr, shows: View)
    requires Views(normal, target, shows)
    ensures Functional(shows)
  {
    forall w, o, p | shows(w, o) && shows(w, p) ensures o == p {
      assert IsTx(normal, target, w, o) && IsTx(normal, target, w, p);
      TxUnique(normal, target, w, o, p);
    }
  }

  /** The whole page is acceptable and contradicts neither itself nor what was kept before. */
  ghost predicate PageOk(shows: View, page: seq<Wire>, txs: map<Id, Observed>) {
    exists batch :: Holds(shows, page, batch) && Agrees(batch, txs)
  }

  lemma HoldsNext(shows: View, page: seq<Wire>, batch: map<Id, Observed>, w: Wire, o: Observed)
    requires Holds(shows, page, batch) && shows(w, o) && (w.id in batch ==> batch[w.id] == o)
    ensures Holds(shows, page + [w], batch[w.id := o])
  {
    var all, after := page + [w], batch[w.id := o];
    forall id ensures id in after <==> Listed(all, id) {
      if Listed(page, id) {
        var i :| 0 <= i < |page| && page[i].id == id;
        assert all[i].id == id;
      }
      assert all[|page|] == w;
    }
    forall i | 0 <= i < |all| ensures all[i].id in after && shows(all[i], after[all[i].id]) {
      if i < |page| { assert all[i] == page[i]; }
    }
  }

  lemma ReadNext(shows: View, page: seq<Wire>, i: nat, batch: map<Id, Observed>, txs: map<Id, Observed>, o: Observed)
    requires i < |page| && Holds(shows, page[..i], batch) && Agrees(batch, txs) && shows(page[i], o)
    requires (page[i].id in batch ==> batch[page[i].id] == o) && (page[i].id in txs ==> txs[page[i].id] == o)
    ensures Holds(shows, page[..i + 1], batch[page[i].id := o]) && Agrees(batch[page[i].id := o], txs)
  {
    assert page[..i + 1] == page[..i] + [page[i]];
    HoldsNext(shows, page[..i], batch, page[i], o);
  }

  /** Batches of a page and of its beginning hold the same for the same ids. */
  lemma HoldsAgree(shows: View, page: seq<Wire>, i: nat, batch: map<Id, Observed>, full: map<Id, Observed>)
    requires Functional(shows) && i <= |page| && Holds(shows, page[..i], batch) && Holds(shows, page, full)
    ensures Agrees(batch, full)
  {
    forall id | id in batch ensures id in full && batch[id] == full[id] {
      var j :| 0 <= j < |page[..i]| && page[..i][j].id == id;
      assert page[..i][j] == page[j];
      assert shows(page[j], batch[id]) && shows(page[j], full[id]);
    }
  }

  /** A conflict met on the way rules out every batch. */
  lemma Conflicts(shows: View, page: seq<Wire>, txs: map<Id, Observed>, i: nat, batch: map<Id, Observed>, o: Observed)
    requires Functional(shows) && i < |page| && Holds(shows, page[..i], batch) && Agrees(batch, txs) &&
              shows(page[i], o)
    requires (page[i].id in batch && batch[page[i].id] != o) || (page[i].id in txs && txs[page[i].id] != o)
    ensures !PageOk(shows, page, txs)
  {
    var id := page[i].id;
    forall full | Holds(shows, page, full) ensures !Agrees(full, txs) {
      assert shows(page[i], o) && shows(page[i], full[id]);
      HoldsAgree(shows, page, i, batch, full);
    }
  }

  /** One unacceptable transaction rules out every batch. */
  lemma Unreadable(normal: Normaliser, target: Addr, shows: View, page: seq<Wire>, i: nat)
    requires Views(normal, target, shows) && i < |page| && !Acceptable(normal, page[i], target)
    ensures forall full :: !Holds(shows, page, full)
  {
    forall full ensures !Holds(shows, page, full) {
      if page[i].id in full {
        var o := full[page[i].id];
        assert shows(page[i], o) <==> IsTx(normal, target, page[i], o);
      }
    }
  }

  /** Why a history ended; the last reason is found in comparing it with the address statistics. */
  datatype Stop =
    | ProviderError | InvalidPage | Conflicting | TransactionLimit | PageEnd | RepeatedCursor | PageLimit
    | InconsistentStatistics

  /** Transaction `i` is the first the page fails at: it is unacceptable itself, or it contradicts an earlier one. */
  ghost predicate FaultAt(shows: View, page: seq<Wire>, txs: map<Id, Observed>, i: nat, stop: Stop) {
    && i < |page| && PageOk(shows, page[..i], txs) && !PageOk(shows, page[..i + 1], txs)
    && stop == if exists o :: shows(page[i], o) then Conflicting else InvalidPage
  }

  /** One turn of the validation loop. */
  method ReadOne(normal: Normaliser, target: Addr, ghost shows: View, ghost page: seq<Wire>, ghost i: nat, w: Wire,
                 batch: map<Id, Observed>, txs: map<Id, Observed>) returns (r: Result<map<Id, Observed>, Stop>)
    requires target != [] && Views(normal, target, shows) && i < |page| && w == page[i]
    requires Holds(shows, page[..i], batch) && Agrees(batch, txs)
    ensures r.Success? ==> Holds(shows, page[..i + 1], r.value) && Agrees(r.value, txs)
    ensures r.Failure? ==> FaultAt(shows, page, txs, i, r.error) && !PageOk(shows, page, txs)
  {
    var o := Normalize(normal, w, target);
    if o.None? {
      UnreadableFault(normal, target, shows, page, txs, i, batch);
      return Failure(InvalidPage);
    }
    assert shows(w, o.value) by { assert IsTx(normal, target, w, o.value); }
    if (w.id in batch && batch[w.id] != o.value) || (w.id in txs && txs[w.id] != o.value) {
      ViewsFunctional(normal, target, shows);
      ConflictFault(shows, page, txs, i, batch, o.value);
      return Failure(Conflicting);
    }
    ReadNext(shows, page, i, batch, txs, o.value);
    r := Success(batch[w.id := o.value]);
  }

  /** The validation of one page; nothing of it is kept unless all of it is good. */
  method ReadPage(normal: Normaliser, target: Addr, ghost shows: View, page: seq<Wire>, txs: map<Id, Observed>)
    returns (r: Result<map<Id, Observed>, Stop>)
    requires target != [] && Views(normal, target, shows)
    ensures r.Success? <==> PageOk(shows, page, txs)
    ensures r.Success? ==> Holds(shows, page, r.value) && Agrees(r.value, txs)
    ensures r.Failure? ==> exists i :: FaultAt(shows, page, txs, i, r.error)
  {
    var batch: map<Id, Observed> := map[];
    var i := 0;
    while i < |page|
      invariant 0 <= i <= |page| && Holds(shows, page[..i], batch) && Agrees(batch, txs)
    {
      var next := ReadOne(normal, target, shows, page, i, page[i], batch, txs);
      if next.Failure? {
        return next;
      }
      batch, i := next.value, i + 1;
    }
    assert page[..|page|] == page;
    r := Success(batch);
  }

  lemma UnreadableFault(normal: Normaliser, target: Addr, shows: View, page: seq<Wire>, txs: map<Id, Observed>, i: nat,
      batch: map<Id, Observed>)
    requires Views(normal, target, shows) && i < |page| && !Acceptable(normal, page[i], target)
    requires Holds(shows, page[..i], batch) && Agrees(batch, txs)
    ensures FaultAt(shows, page, txs, i, InvalidPage) && !PageOk(shows, page, txs)
  {
    Unreadable(normal, target, shows, page, i);
    Unreadable(normal, target, shows, page[..i + 1], i);
    forall o ensures !shows(page[i], o) {
      assert shows(page[i], o) <==> IsTx(normal, target, page[i], o);
    }
  }

  lemma ConflictFault(shows: View, page: seq<Wire>, txs: map<Id, Observed>, i: nat, batch: map<Id, Observed>,
      o: Observed)
    requires Functional(shows) && i < |page| && Holds(shows, page[..i], batch) && Agrees(batch, txs) &&
              shows(page[i], o)
    requires (page[i].id in batch && batch[page[i].id] != o) || (page[i].id in txs && txs[page[i].id] != o)
    ensures FaultAt(shows, page, txs, i, Conflicting) && !PageOk(shows, page, txs)
  {
    Conflicts(shows, page, txs, i, batch, o);
    assert page[..i + 1][..i] == page[..i];
    Conflicts(shows, page[..i + 1], txs, i, batch, o);
  }

  /** What the provider makes of one request: nothing usable, a null list, or a list. */
  datatype Reply = Unavailable | Null | Page(wires: seq<Wire>)

  function Wires(page: Reply): seq<Wire> { if page.Page? then page.wires else [] }

  /** The ids listed in the first `k` replies. */
  ghost function Seen(replies: seq<Reply>, k: nat): set<Id>
    requires k <= |replies|
  {
    set i, j | 0 <= i < k && 0 <= j < |Wires(replies[i])| :: Wires(replies[i])[j].id
  }

  /** `all` holds exactly what the first `k` replies, whole pages every one, show. */
  ghost predicate Collected(shows: View, replies: seq<Reply>, k: nat, all: map<Id, Observed>)
    requires k <= |replies|
  {
    && (forall i | 0 <= i < k :: replies[i].Page? && |replies[i].wires| <= PAGE_SIZE)
    && all.Keys == Seen(replies, k)
    && forall i, j | 0 <= i < k && 0 <= j < |replies[i].wires| ::
         replies[i].wires[j].id in all && shows(replies[i].wires[j], all[replies[i].wires[j].id])
  }

  lemma KeysNext(shows: View, replies: seq<Reply>, k: nat, all: map<Id, Observed>, batch: map<Id, Observed>)
    requires k < |replies| && all.Keys == Seen(replies, k) && Holds(shows, Wires(replies[k]), batch)
    ensures (all + batch).Keys == Seen(replies, k + 1)
  {
    forall id ensures id in (all + batch).Keys <==> id in Seen(replies, k + 1) {
      SeenNext(replies, k, id);
      assert id in batch <==> Listed(Wires(replies[k]), id);
    }
  }

  /** What a listed transaction shows is kept, on whichever page it was listed. */
  lemma ShownNext(shows: View, replies: seq<Reply>, k: nat, all: map<Id, Observed>, batch: map<Id, Observed>, i: nat,
      j: nat)
    requires k < |replies| && Collected(shows, replies, k, all) && i <= k && j < |Wires(replies[i])|
    requires Holds(shows, Wires(replies[k]), batch) && Agrees(batch, all)
    ensures var w := Wires(replies[i])[j]; w.id in all + batch && shows(w, (all + batch)[w.id])
  {
    var w := Wires(replies[i])[j];
    if i < k {
      assert w == replies[i].wires[j];
      assert w.id in all && shows(w, all[w.id]);
      if w.id in batch { assert batch[w.id] == all[w.id]; }
    } else {
      assert w.id in batch && shows(w, batch[w.id]);
    }
  }

  lemma CollectNext(shows: View, replies: seq<Reply>, k: nat, all: map<Id, Observed>, batch: map<Id, Observed>)
    requires k < |replies| && Collected(shows, replies, k, all)
    requires replies[k].Page? && |replies[k].wires| <= PAGE_SIZE
    requires Holds(shows, replies[k].wires, batch) && Agrees(batch, all)
    ensures Collected(shows, replies, k + 1, all + batch)
  {
    KeysNext(shows, replies, k, all, batch);
    var next := all + batch;
    forall i, j | 0 <= i < k + 1 && 0 <= j < |replies[i].wires|
      ensures replies[i].wires[j].id in next && shows(replies[i].wires[j], next[replies[i].wires[j].id])
    {
      ShownNext(shows, replies, k, all, batch, i, j);
    }
  }

  lemma SeenNext(replies: seq<Reply>, k: nat, id: Id)
    requires k < |replies|
    ensures id in Seen(replies, k + 1) <==> id in Seen(replies, k) || Listed(Wires(replies[k]), id)
  {
    if Listed(Wires(replies[k]), id) {
      var j :| 0 <= j < |Wires(replies[k])| && Wires(replies[k])[j].id == id;
      assert 0 <= k < k + 1;
    }
    if id in Seen(replies, k) {
      var i, j :| 0 <= i < k && 0 <= j < |Wires(replies[i])| && Wires(replies[i])[j].id == id;
      assert 0 <= i < k + 1;
    }
  }

  // ----- the retention cap

  function TimeOf(txs: map<Id, Observed>, id: Id): int {
    if id in txs && txs[id].tx.time.Some? then txs[id].tx.time.value else -1
  }

  /** Later first; transactions of one time, or of none, by id. */
  predicate Newer(txs: map<Id, Observed>, a: Id, b: Id) {
    TimeOf(txs, a) > TimeOf(txs, b) || (TimeOf(txs, a) == TimeOf(txs, b) && Less(a, b))
  }

  function NewerIn(txs: map<Id, Observed>): (Id, Id) -> bool { (a, b) => Newer(txs, a, b) }

  lemma NewerOrder(txs: map<Id, Observed>)
    ensures TotalOrder(NewerIn(txs))
  {
    LessOrder();
    forall a, b
      ensures !(NewerIn(txs)(a, b) && NewerIn(txs)(b, a))
      ensures a == b || NewerIn(txs)(a, b) || NewerIn(txs)(b, a)
    {
      assert !(Less(a, b) && Less(b, a)) && (a == b || Less(a, b) || Less(b, a));
    }
    forall a, b, c | !NewerIn(txs)(b, a) && !NewerIn(txs)(c, b) ensures !NewerIn(txs)(c, a) {
      assert !Less(b, a) && !Less(c, b) ==> !Less(c, a);
    }
  }

  /** The newest `MAX_TRANSACTIONS` of `all`: none that was dropped is newer than one that was kept. */
  ghost predicate Newest(all: map<Id, Observed>, kept: map<Id, Observed>) {
    && (forall id | id in kept :: id in all && kept[id] == all[id])
    && |kept| == (if |all| <= MAX_TRANSACTIONS then |all| else MAX_TRANSACTIONS)
    && forall a, b | a in kept && b in all && b !in kept :: Newer(all, a, b)
  }

  lemma {:induction false} DistinctSize(s: seq<Id>, m: set<Id>)
    requires NoDuplicates(s) && forall x :: x in m <==> x in s
    ensures |m| == |s|
    decreases |s|
  {
    if s == [] {
      assert m == {};
    } else {
      var n := |s| - 1;
      assert s == s[..n] + [s[n]];
      assert s[n] !in s[..n];
      DistinctSize(s[..n], m - {s[n]});
    }
  }

  lemma AllNewest(all: map<Id, Observed>)
    requires |all| <= MAX_TRANSACTIONS
    ensures Newest(all, all)
  {
  }

  method Truncate(all: map<Id, Observed>) returns (kept: map<Id, Observed>)
    requires |all| >= MAX_TRANSACTIONS
    ensures Newest(all, kept)
  {
    NewerOrder(all);
    var ids := SortedKeys(all.Keys, NewerIn(all));
    IdsDistinct(all, ids);
    kept := map id | id in ids[..MAX_TRANSACTIONS] :: all[id];
    forall x ensures x in kept.Keys <==> x in ids[..MAX_TRANSACTIONS] {
    }
    DistinctSize(ids[..MAX_TRANSACTIONS], kept.Keys);
    assert |kept| == |kept.Keys|;
    forall a, b | a in kept && b in all && b !in kept ensures Newer(all, a, b) {
      KeptNewer(all, ids, a, b);
    }
  }

  lemma IdsDistinct(all: map<Id, Observed>, ids: seq<Id>)
    requires Ascends(ids, NewerIn(all)) && (forall x :: x in ids <==> x in all) && TotalOrder(NewerIn(all))
    ensures NoDuplicates(ids) && |ids| == |all|
  {
    forall i, j | 0 <= i < j < |ids| ensures ids[i] != ids[j] {
      assert NewerIn(all)(ids[i], ids[j]);
    }
    DistinctSize(ids, all.Keys);
  }

  lemma KeptNewer(all: map<Id, Observed>, ids: seq<Id>, a: Id, b: Id)
    requires Ascends(ids, NewerIn(all)) && |ids| >= MAX_TRANSACTIONS
    requires a in ids[..MAX_TRANSACTIONS] && b in ids && b !in ids[..MAX_TRANSACTIONS]
    ensures Newer(all, a, b)
  {
    var i :| 0 <= i < MAX_TRANSACTIONS && ids[..MAX_TRANSACTIONS][i] == a;
    var j :| 0 <= j < |ids| && ids[j] == b;
    assert forall x | 0 <= x < MAX_TRANSACTIONS :: ids[..MAX_TRANSACTIONS][x] == ids[x];
    assert NewerIn(all)(ids[i], ids[j]);
  }

  // ----- the page loop

  predicate Full(page: Reply) { page.Page? && |page.wires| == PAGE_SIZE }

  /** The provider's last record on a full page, after which the next page starts. */
  function CursorOf(page: Reply): Id
    requires Full(page)
  {
    page.wires[PAGE_SIZE - 1].id
  }

  /** The first `k` pages are full, list fewer transactions than are kept and end with different ids. */
  ghost predicate GoesOn(replies: seq<Reply>, k: nat)
    requires k <= |replies|
  {
    && (forall j | 0 <= j < k :: Full(replies[j]))
    && |Seen(replies, k)| < MAX_TRANSACTIONS
    && forall i, j | 0 <= i < j < k :: CursorOf(replies[i]) != CursorOf(replies[j])
  }

  /** Page `k` cannot be used at all. */
  ghost predicate Rejected(shows: View, page: Reply, all: map<Id, Observed>, stop: Stop) {
    match page
    case Unavailable => stop == ProviderError
    case Null => stop == InvalidPage
    case Page(wires) =>
      if |wires| > PAGE_SIZE then stop == InvalidPage else exists i :: FaultAt(shows, wires, all, i, stop)
  }

  /** One of the first `k` pages ends with `c`. */
  ghost predicate CursorBefore(replies: seq<Reply>, k: nat, c: Id)
    requires k <= |replies| && GoesOn(replies, k)
  {
    exists i | 0 <= i < k :: CursorOf(replies[i]) == c
  }

  /** Page `j` was kept and is the last. */
  ghost predicate Final(replies: seq<Reply>, j: nat, stop: Stop)
    requires j < |replies| && GoesOn(replies, j)
  {
    if |Seen(replies, j + 1)| >= MAX_TRANSACTIONS then stop == TransactionLimit
    else if !Full(replies[j]) then stop == PageEnd
    else stop == RepeatedCursor && CursorBefore(replies, j, CursorOf(replies[j]))
  }

  /** Why the loop stopped with the first `k` pages, and that every page before invited the next. */
  ghost predicate Stopped(shows: View, replies: seq<Reply>, k: nat, all: map<Id, Observed>, stop: Stop)
    requires k <= |replies|
  {
    || (GoesOn(replies, k) && if k == |replies| then stop == PageLimit else Rejected(shows, replies[k], all, stop))
    || (k > 0 && GoesOn(replies, k - 1) && Final(replies, k - 1, stop))
  }

  /** What the history has collected, kept of it, and stopped for. */
  ghost predicate Ended(shows: View, replies: seq<Reply>, k: nat, all: map<Id, Observed>, txs: map<Id, Observed>,
      stop: Stop) {
    && k <= |replies| && Collected(shows, replies, k, all)
    && Newest(all, txs) && Stopped(shows, replies, k, all, stop)
  }

  /** Some number of whole pages shows these transactions and ends this way. */
  ghost predicate Reaches(shows: View, replies: seq<Reply>, txs: map<Id, Observed>, stop: Stop) {
    exists k, all :: Ended(shows, replies, k, all, txs, stop)
  }

  lemma EndedReaches(shows: View, replies: seq<Reply>, k: nat, all: map<Id, Observed>, txs: map<Id, Observed>,
      stop: Stop)
    requires Ended(shows, replies, k, all, txs, stop)
    ensures |txs| <= MAX_TRANSACTIONS && Reaches(shows, replies, txs, stop)
  {
  }

  ghost predicate Cursors(replies: seq<Reply>, k: nat, cursors: set<Id>)
    requires k <= |replies| && GoesOn(replies, k)
  {
    forall c :: c in cursors <==> CursorBefore(replies, k, c)
  }

  /** Before page `k`: everything so far is kept, and the page is asked for. */
  ghost predicate Asking(shows: View, replies: seq<Reply>, k: nat, txs: map<Id, Observed>, cursors: set<Id>) {
    && k <= |replies| && Collected(shows, replies, k, txs)
    && GoesOn(replies, k) && Cursors(replies, k, cursors)
  }

  lemma StartsAsking(shows: View, replies: seq<Reply>)
    ensures Asking(shows, replies, 0, map[], {})
  {
    assert Seen(replies, 0) == {};
  }

  lemma EndsBefore(shows: View, replies: seq<Reply>, k: nat, txs: map<Id, Observed>, cursors: set<Id>, stop: Stop)
    requires Asking(shows, replies, k, txs, cursors)
    requires if k == |replies| then stop == PageLimit else Rejected(shows, replies[k], txs, stop)
    ensures Ended(shows, replies, k, txs, txs, stop)
  {
    assert |txs| == |txs.Keys|;
    AllNewest(txs);
  }

  /** Page `k` was usable and its transactions are kept in `all`. */
  ghost predicate Kept(shows: View, replies: seq<Reply>, k: nat, all: map<Id, Observed>, cursors: set<Id>) {
    && k < |replies| && Collected(shows, replies, k + 1, all)
    && GoesOn(replies, k) && Cursors(replies, k, cursors)
  }

  lemma PageKept(shows: View, replies: seq<Reply>, k: nat, txs: map<Id, Observed>, cursors: set<Id>,
      batch: map<Id, Observed>)
    requires Asking(shows, replies, k, txs, cursors) && k < |replies|
    requires replies[k].Page? && |replies[k].wires| <= PAGE_SIZE
    requires Holds(shows, replies[k].wires, batch) && Agrees(batch, txs)
    ensures Kept(shows, replies, k, txs + batch, cursors)
  {
    CollectNext(shows, replies, k, txs, batch);
  }

  lemma SeenSize(shows: View, replies: seq<Reply>, k: nat, all: map<Id, Observed>)
    requires k <= |replies| && Collected(shows, replies, k, all)
    ensures |all| == |Seen(replies, k)|
  {
    assert |all| == |all.Keys|;
  }

  lemma GoesOnNext(replies: seq<Reply>, k: nat, cursors: set<Id>)
    requires k < |replies| && GoesOn(replies, k) && Cursors(replies, k, cursors)
    requires Full(replies[k]) && |Seen(replies, k + 1)| < MAX_TRANSACTIONS && CursorOf(replies[k]) !in cursors
    ensures GoesOn(replies, k + 1) && Cursors(replies, k + 1, cursors + {CursorOf(replies[k])})
  {
    var last := CursorOf(replies[k]);
    forall i | 0 <= i < k ensures CursorOf(replies[i]) != last {
      assert !CursorBefore(replies, k, last);
    }
    forall c ensures c in cursors + {last} <==> CursorBefore(replies, k + 1, c) {
      if CursorBefore(replies, k, c) {
        var i :| 0 <= i < k && CursorOf(replies[i]) == c;
        assert 0 <= i < k + 1;
      }
    }
  }

  lemma AsksNext(shows: View, replies: seq<Reply>, k: nat, all: map<Id, Observed>, cursors: set<Id>)
    requires Kept(shows, replies, k, all, cursors) && |all| < MAX_TRANSACTIONS
    requires Full(replies[k]) && CursorOf(replies[k]) !in cursors
    ensures Asking(shows, replies, k + 1, all, cursors + {CursorOf(replies[k])})
  {
    SeenSize(shows, replies, k + 1, all);
    GoesOnNext(replies, k, cursors);
  }

  /** What follows once a page's transactions are added: the cap, the end of the history, or its next cursor. */
  method Continue(ghost shows: View, ghost replies: seq<Reply>, ghost page: nat, all: map<Id, Observed>,
      wire: seq<Wire>, cursors: set<Id>)
    returns (txs: map<Id, Observed>, next: set<Id>, stop: Option<Stop>)
    requires Kept(shows, replies, page, all, cursors) && replies[page] == Page(wire) && |wire| <= PAGE_SIZE
    ensures stop.Some? ==> Newest(all, txs) && Stopped(shows, replies, page + 1, all, stop.value)
    ensures stop.None? ==> txs == all && Asking(shows, replies, page + 1, all, next)
  {
    txs, next := all, cursors;
    SeenSize(shows, replies, page + 1, all);
    if |all| >= MAX_TRANSACTIONS {
      txs := Truncate(all);
      return txs, next, Some(TransactionLimit);
    }
    AllNewest(all);
    if |wire| < PAGE_SIZE {
      return txs, next, Some(PageEnd);
    }
    var cursor := wire[|wire| - 1].id;
    assert cursor == CursorOf(replies[page]);
    if cursor in cursors {
      return txs, next, Some(RepeatedCursor);
    }
    AsksNext(shows, replies, page, all, cursors);
    next, stop := cursors + {cursor}, None;
  }

  /** One reply: it is refused as it stands, or all of its transactions are added. */
  method AddPage(normal: Normaliser, target: Addr, ghost shows: View, ghost replies: seq<Reply>, ghost page: nat,
                 reply: Reply, txs: map<Id, Observed>, ghost cursors: set<Id>)
    returns (r: Result<map<Id, Observed>, Stop>)
    requires target != [] && Views(normal, target, shows)
    requires Asking(shows, replies, page, txs, cursors) && page < |replies| && reply == replies[page]
    ensures r.Success? ==> Kept(shows, replies, page, r.value, cursors) && reply.Page? && |reply.wires| <= PAGE_SIZE
    ensures r.Failure? ==> Ended(shows, replies, page, txs, txs, r.error)
  {
    if reply.Unavailable? {
      EndsBefore(shows, replies, page, txs, cursors, ProviderError);
      return Failure(ProviderError);
    }
    if reply.Null? || |reply.wires| > PAGE_SIZE {
      EndsBefore(shows, replies, page, txs, cursors, InvalidPage);
      return Failure(InvalidPage);
    }
    var batch := ReadPage(normal, target, shows, reply.wires, txs);
    if batch.Failure? {
      EndsBefore(shows, replies, page, txs, cursors, batch.error);
      return batch;
    }
    PageKept(shows, replies, page, txs, cursors, batch.value);
    r := Success(txs + batch.value);
  }

  /** One turn of the page loop. */
  method Turn(normal: Normaliser, target: Addr, ghost shows: View, ghost replies: seq<Reply>, ghost page: nat,
              reply: Reply, txs: map<Id, Observed>, cursors: set<Id>)
    returns (kept: map<Id, Observed>, next: set<Id>, stop: Option<Stop>, ghost k: nat, ghost all: map<Id, Observed>)
    requires target != [] && Views(normal, target, shows)
    requires Asking(shows, replies, page, txs, cursors) && page < |replies| && reply == replies[page]
    ensures stop.Some? ==> Ended(shows, replies, k, all, kept, stop.value)
    ensures stop.None? ==> Asking(shows, replies, page + 1, kept, next)
  {
    var added := AddPage(normal, target, shows, replies, page, reply, txs, cursors);
    if added.Failure? {
      return txs, cursors, Some(added.error), page, txs;
    }
    k, all := page + 1, added.value;
    kept, next, stop := Continue(shows, replies, page, added.value, reply.wires, cursors);
  }

  /**
   `history` over the provider's replies, for any number of pages it is allowed.  What it returns are the
   transactions of the whole pages before the stop, never part of a page, cut to the newest hundred.
   */
  method History(normal: Normaliser, target: Addr, ghost shows: View, replies: seq<Reply>)
    returns (txs: map<Id, Observed>, stop: Stop, ghost k: nat, ghost all: map<Id, Observed>)
    requires target != [] && Views(normal, target, shows)
    ensures Ended(shows, replies, k, all, txs, stop)
    ensures |txs| <= MAX_TRANSACTIONS && Reaches(shows, replies, txs, stop)
  {
    StartsAsking(shows, replies);
    hide Asking, Ended, Reaches;
    txs := map[];
    var cursors: set<Id> := {};
    var page := 0;
    while page < |replies|
      invariant 0 <= page <= |replies| && Asking(shows, replies, page, txs, cursors)
    {
      var ended: Option<Stop>;
      txs, cursors, ended, k, all := Turn(normal, target, shows, replies, page, replies[page], txs, cursors);
      if ended.Some? {
        EndedReaches(shows, replies, k, all, txs, ended.value);
        return txs, ended.value, k, all;
      }
      page := page + 1;
    }
    EndsBefore(shows, replies, page, txs, cursors, PageLimit);
    EndedReaches(shows, replies, page, txs, txs, PageLimit);
    return txs, PageLimit, page, txs;
  }

  // ----- from the history to its counterparties

  lemma TxBounded(normal: Normaliser, target: Addr, w: Wire, o: Observed)
    requires IsTx(normal, target, w, o)
    ensures Bounded(o) && Plain(o)
  {
    ObservedBounded(normal, w, target, o);
  }

  lemma RetainedBounded(normal: Normaliser, target: Addr, shows: View, replies: seq<Reply>, k: nat,
                        all: map<Id, Observed>, txs: map<Id, Observed>, id: Id)
    requires Views(normal, target, shows) && k <= |replies| && Collected(shows, replies, k, all) && Newest(all, txs) &&
              id in txs
    ensures Bounded(txs[id]) && Plain(txs[id])
  {
    var i, j :| 0 <= i < k && 0 <= j < |Wires(replies[i])| && Wires(replies[i])[j].id == id;
    assert IsTx(normal, target, replies[i].wires[j], all[id]);
    TxBounded(normal, target, replies[i].wires[j], all[id]);
  }

  /** `ordered` lists every transaction of the map once, in some order. */
  ghost predicate Arranges(txs: map<Id, Observed>, ids: seq<Id>, ordered: seq<Observed>) {
    && NoDuplicates(ids) && (forall id :: id in ids <==> id in txs)
    && |ordered| == |ids| && forall i | 0 <= i < |ids| :: ids[i] in txs && ordered[i] == txs[ids[i]]
  }

  /** The first `MAX_COUNTERPARTIES` addresses in order, and whether there are more. */
  ghost predicate FirstOf(peers: map<Addr, Peer>, listed: seq<Addr>, truncated: bool) {
    && Ascends(listed, Less) && (forall a | a in listed :: a in peers)
    && (truncated <==> |peers| > MAX_COUNTERPARTIES)
    && |listed| == (if truncated then MAX_COUNTERPARTIES else |peers|)
    && forall a, b | a in listed && b in peers && b !in listed :: Less(a, b)
  }

  /** No total comes near the 64-bit range. */
  ghost predicate TotalsFit(peers: map<Addr, Peer>) {
    forall a | a in peers && peers[a].value.Some? :: 0 <= peers[a].value.value <= MAX_TRANSACTIONS * MAX_MONEY
  }

  /**
   The counterparty part of `project`: every counterparty's total is exact and far from overflowing, and the
   first 256 addresses in order are reported.
   */
  method Counterparties(txs: map<Id, Observed>)
    returns (peers: map<Addr, Peer>, listed: seq<Addr>, truncated: bool, ghost ids: seq<Id>,
        ghost ordered: seq<Observed>)
    requires |txs| <= MAX_TRANSACTIONS && forall id | id in txs :: Bounded(txs[id]) && Plain(txs[id])
    ensures Arranges(txs, ids, ordered) && Peers(ordered, peers)
    ensures TotalsFit(peers) && FirstOf(peers, listed, truncated)
  {
    NewerOrder(txs);
    var sorted := SortedKeys(txs.Keys, NewerIn(txs));
    IdsDistinct(txs, sorted);
    assert forall i | 0 <= i < |sorted| :: sorted[i] in sorted;
    var list := seq(|sorted|, i requires 0 <= i < |sorted| => txs[sorted[i]]);
    ids, ordered := sorted, list;
    peers := Aggregate(list);
    forall a | a in peers && peers[a].value.Some? ensures 0 <= peers[a].value.value <= MAX_TRANSACTIONS * MAX_MONEY {
      PeerFits(list, peers, a);
    }
    listed, truncated := FirstAddresses(peers);
  }

  method FirstAddresses(peers: map<Addr, Peer>) returns (listed: seq<Addr>, truncated: bool)
    ensures FirstOf(peers, listed, truncated)
  {
    LessOrder();
    var keys := SortedKeys(peers.Keys, Less);
    assert NoDuplicates(keys) by {
      forall i, j | 0 <= i < j < |keys| ensures keys[i] != keys[j] {
        assert Less(keys[i], keys[j]);
      }
    }
    DistinctSize(keys, peers.Keys);
    truncated := |keys| > MAX_COUNTERPARTIES;
    var n := if truncated then MAX_COUNTERPARTIES else |keys|;
    listed := keys[..n];
    assert forall x | 0 <= x < n :: keys[..n][x] == keys[x];
    forall a, b | a in listed && b in peers && b !in listed ensures Less(a, b) {
      var i :| 0 <= i < n && keys[i] == a;
      assert b in keys;
      var j :| 0 <= j < |keys| && keys[j] == b;
    }
  }

  /** How much of the history a report speaks for. */
  datatype Extent = Complete | Partial | Nothing

  datatype Report = Report(
    txs: map<Id, Observed>, peers: map<Addr, Peer>, listed: seq<Addr>, truncated: bool, stop: Stop, extent: Extent)

  /** Stops that `history` reports as errors. */
  predicate Failed(stop: Stop) {
    stop.ProviderError? || stop.InvalidPage? || stop.Conflicting? || stop.RepeatedCursor? ||
        stop.InconsistentStatistics?
  }

  /**
   The history part of `Search`, from the provider's replies and its transaction count to the report: the
   transactions the whole pages show, and their exact counterparties.
   */
  method Observe(normal: Normaliser, target: Addr, ghost shows: View, replies: seq<Reply>, count: nat)
    returns (r: Report, ghost k: nat, ghost all: map<Id, Observed>, ghost end: Stop, ghost ids: seq<Id>,
             ghost ordered: seq<Observed>)
    requires |replies| == MAX_PAGES && target != [] && Views(normal, target, shows)
    ensures Ended(shows, replies, k, all, r.txs, end)
    ensures r.stop == (if Failed(end) || (r.txs == map[] <==> count == 0) then end else InconsistentStatistics)
    ensures Arranges(r.txs, ids, ordered) && Peers(ordered, r.peers)
    ensures TotalsFit(r.peers) && FirstOf(r.peers, r.listed, r.truncated)
    ensures r.extent == Complete <==> !Failed(r.stop)
    ensures r.extent == Nothing ==> r.txs == map[]
  {
    var txs, stop;
    txs, stop, k, all := History(normal, target, shows, replies);
    end := stop;
    forall id | id in txs ensures Bounded(txs[id]) && Plain(txs[id]) {
      RetainedBounded(normal, target, shows, replies, k, all, txs, id);
    }
    if !Failed(stop) && ((|txs| == 0 && count > 0) || (|txs| > 0 && count == 0)) {
      stop := InconsistentStatistics;
    }
    var peers, listed, truncated;
    peers, listed, truncated, ids, ordered := Counterparties(txs);
    var extent := if !Failed(stop) then Complete else if |txs| > 0 then Partial else Nothing;
    r := Report(txs, peers, listed, truncated, stop, extent);
  }

  /** The counterparties are a function of the set of retained transactions. */
  lemma CounterpartiesUnique(txs: map<Id, Observed>, ids: seq<Id>, x: seq<Observed>, p: map<Addr, Peer>,
                             jds: seq<Id>, y: seq<Observed>, q: map<Addr, Peer>)
    requires Arranges(txs, ids, x) && Arranges(txs, jds, y) && Peers(x, p) && Peers(y, q)
    ensures p == q
  {
    SameArrangement(txs, ids, x, jds, y);
    PeersPermuted(x, y, p, q);
  }

  lemma {:induction false} SameArrangement(txs: map<Id, Observed>, ids: seq<Id>, x: seq<Observed>, jds: seq<Id>,
      y: seq<Observed>)
    requires Arranges(txs, ids, x) && Arranges(txs, jds, y)
    ensures multiset(x) == multiset(y)
    decreases |ids|
  {
    assert |jds| > 0 ==> jds[0] in jds;
    if ids != [] {
      var n := |ids| - 1;
      assert ids[n] in ids && ids[n] in jds;
      var j :| 0 <= j < |jds| && jds[j] == ids[n];
      var jds', y' := jds[..j] + jds[j + 1..], y[..j] + y[j + 1..];
      Without(y, j);
      assert x == x[..n] + [x[n]];
      assert ids[..n] + ids[n + 1..] == ids[..n] && x[..n] + x[n + 1..] == x[..n];
      Rest(txs, ids, x, n, ids[..n], x[..n]);
      Rest(txs, jds, y, j, jds', y');
      SameArrangement(txs - {ids[n]}, ids[..n], x[..n], jds', y');
    }
  }

  lemma DropOne(ids: seq<Id>, j: nat, rest: seq<Id>)
    requires NoDuplicates(ids) && j < |ids| && rest == ids[..j] + ids[j + 1..]
    ensures NoDuplicates(rest) && forall id :: id in rest <==> id in ids && id != ids[j]
  {
    assert forall i | 0 <= i < |rest| :: rest[i] == ids[if i < j then i else i + 1];
    forall id | id in ids && id != ids[j] ensures id in rest {
      var i :| 0 <= i < |ids| && ids[i] == id;
      assert rest[if i < j then i else i - 1] == id;
    }
  }

  lemma DropBoth(txs: map<Id, Observed>, ids: seq<Id>, x: seq<Observed>, j: nat, ids': seq<Id>, x': seq<Observed>,
      i: nat)
    requires |x| == |ids| && j < |ids| && ids' == ids[..j] + ids[j + 1..] && x' == x[..j] + x[j + 1..] && i < |ids'|
    requires forall k | 0 <= k < |ids| :: ids[k] in txs && x[k] == txs[ids[k]]
    ensures ids'[i] in txs && x'[i] == txs[ids'[i]]
  {
    var k := if i < j then i else i + 1;
    assert ids'[i] == ids[k] && x'[i] == x[k];
  }

  lemma Rest(txs: map<Id, Observed>, ids: seq<Id>, x: seq<Observed>, j: nat, ids': seq<Id>, x': seq<Observed>)
    requires Arranges(txs, ids, x) && j < |ids| && ids' == ids[..j] + ids[j + 1..] && x' == x[..j] + x[j + 1..]
    ensures Arranges(txs - {ids[j]}, ids', x')
  {
    DropOne(ids, j, ids');
    forall i | 0 <= i < |ids'| ensures ids'[i] in txs - {ids[j]} && x'[i] == (txs - {ids[j]})[ids'[i]] {
      DropBoth(txs, ids, x, j, ids', x', i);
      assert ids'[i] in ids';
    }
  }
}
