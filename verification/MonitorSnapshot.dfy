/** The watch monitor's comparison: canonical evidence, set difference as a patch, projection and merge. */
module MonitorSnapshot {
  import opened Common
  import opened Bytes
  import opened Sorting

  const MAX_EVIDENCE: nat := 8192
  const MAX_SOURCE: nat := 256

  const MAX_KIND: nat := 256
  const MAX_VALUE: nat := 0x1_0000
  const MAX_ROWS: nat := 2048

  type Str = seq<byte>

  /** The bytes of an ASCII text. */
  function Ascii(s: string): Str { seq(|s|, i requires 0 <= i < |s| => (s[i] as int) % 256) }

  /** ASCII letters in lower case. */
  function Lower(s: Str): Str { seq(|s|, i requires 0 <= i < |s| => if 65 <= s[i] <= 90 then s[i] + 32 else s[i]) }

  predicate Contains(s: Str, part: Str) { part <= s || (s != [] && Contains(s[1..], part)) }

  predicate EndsWith(s: Str, part: Str) { |part| <= |s| && s[|s| - |part|..] == part }

  datatype Evidence = Evidence(kind: Str, value: Str)

  /** `evidenceLess`. */
  predicate EvidenceLess(a: Evidence, b: Evidence) {
    if a.kind != b.kind then Less(a.kind, b.kind) else Less(a.value, b.value)
  }

  lemma EvidenceCases(a: Evidence, b: Evidence)
    ensures EvidenceLess(a, b) || a == b || EvidenceLess(b, a)
    ensures !(EvidenceLess(a, b) && EvidenceLess(b, a)) && !EvidenceLess(a, a)
  {
    LessTrichotomy(a.kind, b.kind);
    LessTrichotomy(a.value, b.value);
  }

  lemma EvidenceChain(a: Evidence, b: Evidence, c: Evidence)
    requires EvidenceLess(a, b) && EvidenceLess(b, c)
    ensures EvidenceLess(a, c)
  {
    LessTrichotomy(a.kind, c.kind);
    if a.kind == b.kind == c.kind {
      LessTransitive(a.value, b.value, c.value);
    } else if a.kind != b.kind {
      LessTransitive(a.kind, b.kind, c.kind);
      if a.kind == c.kind { LessTrichotomy(b.kind, c.kind); }
    }
  }

  lemma EvidenceOrder()
    ensures TotalOrder(EvidenceLess)
  {
    forall a, b
      ensures !(EvidenceLess(a, b) && EvidenceLess(b, a)) && (a == b || EvidenceLess(a, b) || EvidenceLess(b, a))
    {
      EvidenceCases(a, b);
    }
    forall a, b, c | !EvidenceLess(b, a) && !EvidenceLess(c, b) ensures !EvidenceLess(c, a) {
      EvidenceCases(a, b);
      EvidenceCases(b, c);
      EvidenceCases(a, c);
      if a != b && b != c { EvidenceChain(a, b, c); }
    }
  }

  // ----- canonical evidence

  /** What redaction, the runtime-field filter and `canonicalValue` make of one item. */
  datatype Cleaned = Dropped | Refused | Clean(item: Evidence)

  /** Redaction and value normalisation are a parameter: some function of the item. */
  type Cleaner = Evidence -> Cleaned

  predicate Cleanable(clean: Cleaner, items: seq<Evidence>) {
    |items| <= MAX_EVIDENCE && forall i | 0 <= i < |items| :: !clean(items[i]).Refused?
  }

  ghost predicate Yields(clean: Cleaner, items: seq<Evidence>, e: Evidence) {
    exists i | 0 <= i < |items| :: clean(items[i]) == Clean(e)
  }

  /** Fields that tell when and how something was observed, not what. */
  predicate RuntimeField(name: Str) {
    Lower(name) in {Ascii("observation_time"), Ascii("observed_at"), Ascii("request_duration"), Ascii("duration"),
                    Ascii("duration_ms"), Ascii("run_id"), Ascii("request_id"), Ascii("random_id"), Ascii("fetched_at")}
  }

  /**
   One turn of the loop of `canonicalEvidence`: redaction, the runtime-field filter, the bounds on the kind and the
   value, and `canonicalValue`.  Redaction, the encoding test and the rest of `canonicalValue` are parameters.
   */
  function Cleaning(redact: Evidence -> Evidence, valid: Str -> bool, value: Str -> Option<Str>): Cleaner {
    (e: Evidence) =>
      var r := redact(e);
      if RuntimeField(r.kind) then Dropped
      else if r.kind == [] || |r.kind| > MAX_KIND || !valid(r.kind) || |r.value| > MAX_VALUE then Refused
      else match value(r.value)
           case None => Refused
           case Some(v) => Clean(Evidence(r.kind, v))
  }

  /** Cleaning a cleaned item changes nothing while its value is within the bound, and is refused beyond it. */
  ghost predicate Stable(clean: Cleaner) {
    forall e | clean(e).Clean? ::
      clean(clean(e).item) == if |clean(e).item.value| <= MAX_VALUE then clean(e) else Refused
  }

  /**
   Cleaning is stable when normalisation is idempotent as long as its result is within the bound, and when nothing
   that was redacted and normalised is redacted again.
   */
  lemma CleanStable(redact: Evidence -> Evidence, valid: Str -> bool, value: Str -> Option<Str>)
    requires forall v | |v| <= MAX_VALUE && value(v).Some? && |value(v).value| <= MAX_VALUE ::
               value(value(v).value) == value(v)
    requires forall e | |redact(e).value| <= MAX_VALUE && value(redact(e).value).Some? ::
               var done := Evidence(redact(e).kind, value(redact(e).value).value); redact(done) == done
    ensures Stable(Cleaning(redact, valid, value))
  {
    var clean := Cleaning(redact, valid, value);
    forall e | clean(e).Clean?
      ensures clean(clean(e).item) == if |clean(e).item.value| <= MAX_VALUE then clean(e) else Refused
    {
      var r := redact(e);
      assert value(r.value).Some? && clean(e).item == Evidence(r.kind, value(r.value).value);
    }
  }

  /** The cleaned items, each once, in order. */
  ghost predicate IsCanonical(clean: Cleaner, items: seq<Evidence>, out: seq<Evidence>) {
    Ascends(out, EvidenceLess) && forall e :: e in out <==> Yields(clean, items, e)
  }

  method CanonicalEvidence(clean: Cleaner, items: seq<Evidence>) returns (r: Option<seq<Evidence>>)
    ensures r.Some? <==> Cleanable(clean, items)
    ensures r.Some? ==> IsCanonical(clean, items, r.value) && |r.value| <= |items|
  {
    if |items| > MAX_EVIDENCE {
      return None;
    }
    var out: seq<Evidence> := [];
    var seen: set<Evidence> := {};
    var i := 0;
    while i < |items|
      invariant 0 <= i <= |items| && |out| <= i
      invariant forall j | 0 <= j < i :: !clean(items[j]).Refused?
      invariant NoDuplicates(out) && forall e :: e in out <==> e in seen
      invariant forall e :: e in seen <==> exists j | 0 <= j < i :: clean(items[j]) == Clean(e)
    {
      match clean(items[i]) {
        case Refused => return None;
        case Dropped =>
        case Clean(e) =>
          if e !in seen {
            seen, out := seen + {e}, out + [e];
          }
      }
      i := i + 1;
    }
    EvidenceOrder();
    SortAscends(out, EvidenceLess);
    SameElements(Sort(out, EvidenceLess), out);
    r := Some(Sort(out, EvidenceLess));
  }

  /** Canonicalisation accepts the evidence and leaves it as it is: what the baseline parser demands. */
  ghost predicate EvidenceParses(clean: Cleaner, evidence: seq<Evidence>) {
    Cleanable(clean, evidence) && IsCanonical(clean, evidence, evidence)
  }

  /**
   Exactly when canonical evidence passes the baseline parser: when there is not too much of it and no value has
   outgrown its bound in being normalised.
   */
  lemma CanonicalAgain(clean: Cleaner, items: seq<Evidence>, out: seq<Evidence>)
    requires Stable(clean) && IsCanonical(clean, items, out)
    ensures EvidenceParses(clean, out) <==> |out| <= MAX_EVIDENCE && forall e | e in out :: |e.value| <= MAX_VALUE
  {
    forall e | e in out ensures clean(e) == if |e.value| <= MAX_VALUE then Clean(e) else Refused {
      assert Yields(clean, items, e);
    }
    if forall e | e in out :: |e.value| <= MAX_VALUE {
      forall e ensures e in out <==> Yields(clean, out, e) {
        if e in out {
          var i :| 0 <= i < |out| && out[i] == e;
          assert clean(out[i]) == Clean(e);
        }
      }
    }
    assert forall i | 0 <= i < |out| :: out[i] in out;
  }

  // ----- diff

  datatype Change = Added(now: Evidence) | Modified(was: Evidence, now: Evidence) | Removed(was: Evidence)

  /** The evidence a change is listed under. */
  function Subject(c: Change): Evidence { if c.Removed? then c.was else c.now }

  function Rank(c: Change): nat { if c.Added? then 0 else if c.Modified? then 1 else 2 }

  /** By evidence type, value and change kind. */
  predicate ChangeLess(a: Change, b: Change) {
    EvidenceLess(Subject(a), Subject(b)) || (Subject(a) == Subject(b) && Rank(a) < Rank(b))
  }

  lemma ChangeOrder()
    ensures WeakOrder(ChangeLess)
  {
    forall a, b ensures !(ChangeLess(a, b) && ChangeLess(b, a)) {
      EvidenceCases(Subject(a), Subject(b));
    }
    EvidenceOrder();
    forall a, b, c | !ChangeLess(b, a) && !ChangeLess(c, b) ensures !ChangeLess(c, a) {
      var x, y, z := Subject(a), Subject(b), Subject(c);
      assert !EvidenceLess(y, x) && !EvidenceLess(z, y);
      EvidenceCases(x, y);
      EvidenceCases(y, z);
      EvidenceCases(x, z);
    }
  }

  /** `e` is in `here` and not in `there`. */
  predicate Only(here: seq<Evidence>, there: seq<Evidence>, e: Evidence) { e in here && e !in there }

  /** The items of `here` that `there` lacks, of one kind, in order. */
  function OnlyOf(here: seq<Evidence>, there: seq<Evidence>, kind: Str): seq<Evidence> {
    if here == [] then []
    else
      var n := |here| - 1;
      OnlyOf(here[..n], there, kind) + (if here[n].kind == kind && here[n] !in there then [here[n]] else [])
  }

  lemma {:induction false} OnlyOfHas(here: seq<Evidence>, there: seq<Evidence>, kind: Str)
    requires NoDuplicates(here)
    ensures NoDuplicates(OnlyOf(here, there, kind))
    ensures forall e :: e in OnlyOf(here, there, kind) <==> Only(here, there, e) && e.kind == kind
    decreases |here|
  {
    if here != [] {
      var n := |here| - 1;
      OnlyOfHas(here[..n], there, kind);
      assert here == here[..n] + [here[n]];
      assert here[n] !in here[..n];
    }
  }

  /** Exactly one item of the kind went and exactly one came. */
  predicate Replaces(was: seq<Evidence>, now: seq<Evidence>, kind: Str) {
    |OnlyOf(was, now, kind)| == 1 && |OnlyOf(now, was, kind)| == 1
  }

  /** The changes between two evidence lists. */
  predicate IsChange(was: seq<Evidence>, now: seq<Evidence>, c: Change) {
    match c
    case Added(n) => Only(now, was, n) && !Replaces(was, now, n.kind)
    case Removed(o) => Only(was, now, o) && !Replaces(was, now, o.kind)
    case Modified(o, n) => Only(was, now, o) && Only(now, was, n) && o.kind == n.kind && Replaces(was, now, n.kind)
  }

  ghost predicate IsDiff(was: seq<Evidence>, now: seq<Evidence>, changes: seq<Change>) {
    Ascends(changes, ChangeLess) && forall c :: c in changes <==> IsChange(was, now, c)
  }

  /** Two changes of one pair of lists never tie. */
  lemma ChangesDiffer(was: seq<Evidence>, now: seq<Evidence>, a: Change, b: Change)
    requires NoDuplicates(was) && NoDuplicates(now)
    requires IsChange(was, now, a) && IsChange(was, now, b) && !ChangeLess(a, b) && !ChangeLess(b, a)
    ensures a == b
  {
    EvidenceCases(Subject(a), Subject(b));
    if a.Modified? && b.Modified? {
      OnlyOfHas(was, now, a.now.kind);
      assert a.was in OnlyOf(was, now, a.now.kind) && b.was in OnlyOf(was, now, a.now.kind);
    }
  }

  method Members(items: seq<Evidence>) returns (s: set<Evidence>)
    ensures forall e :: e in s <==> e in items
  {
    s := {};
    var i := 0;
    while i < |items|
      invariant 0 <= i <= |items| && forall e :: e in s <==> e in items[..i]
    {
      assert items[..i + 1] == items[..i] + [items[i]];
      s, i := s + {items[i]}, i + 1;
    }
    assert items[..|items|] == items;
  }

  ghost predicate Collects(m: map<Str, seq<Evidence>>, here: seq<Evidence>, there: seq<Evidence>) {
    forall k :: Get(m, k) == OnlyOf(here, there, k) && (k in m <==> Get(m, k) != [])
  }

  lemma CollectNext(m: map<Str, seq<Evidence>>, here: seq<Evidence>, there: seq<Evidence>, e: Evidence)
    requires Collects(m, here, there)
    ensures e in there ==> Collects(m, here + [e], there)
    ensures e !in there ==> Collects(m[e.kind := Get(m, e.kind) + [e]], here + [e], there)
  {
    var after := if e in there then m else m[e.kind := Get(m, e.kind) + [e]];
    forall k ensures Get(after, k) == OnlyOf(here + [e], there, k) && (k in after <==> Get(after, k) != []) {
      assert (here + [e])[..|here|] == here;
      assert Get(m, k) == OnlyOf(here, there, k) && (k in m <==> Get(m, k) != []);
    }
  }

  /** The map from kind to the items of `here` that are not in `other`, the set of `there`. */
  method Collect(here: seq<Evidence>, other: set<Evidence>, ghost there: seq<Evidence>)
    returns (m: map<Str, seq<Evidence>>)
    requires forall e :: e in other <==> e in there
    ensures Collects(m, here, there)
  {
    m := map[];
    var i := 0;
    while i < |here|
      invariant 0 <= i <= |here| && Collects(m, here[..i], there)
    {
      var e := here[i];
      assert here[..i + 1] == here[..i] + [e];
      CollectNext(m, here[..i], there, e);
      if e !in other {
        m := m[e.kind := Get(m, e.kind) + [e]];
      }
      i := i + 1;
    }
    assert here[..|here|] == here;
  }

  function Get(m: map<Str, seq<Evidence>>, k: Str): seq<Evidence> { if k in m then m[k] else [] }

  /** The changes of one kind. */
  function Emit(gone: seq<Evidence>, came: seq<Evidence>): seq<Change> {
    if |gone| == 1 && |came| == 1 then [Modified(gone[0], came[0])]
    else
      seq(|came|, i requires 0 <= i < |came| => Added(came[i])) +
      seq(|gone|, i requires 0 <= i < |gone| => Removed(gone[i]))
  }

  lemma EmitChanges(was: seq<Evidence>, now: seq<Evidence>, kind: Str)
    requires NoDuplicates(was) && NoDuplicates(now)
    ensures var out := Emit(OnlyOf(was, now, kind), OnlyOf(now, was, kind));
            NoDuplicates(out) && forall c :: c in out <==> IsChange(was, now, c) && Subject(c).kind == kind
  {
    var gone, came := OnlyOf(was, now, kind), OnlyOf(now, was, kind);
    OnlyOfHas(was, now, kind);
    OnlyOfHas(now, was, kind);
    EmitDistinct(gone, came);
    forall c ensures c in Emit(gone, came) <==> IsChange(was, now, c) && Subject(c).kind == kind {
      if Replaces(was, now, kind) { EmitPair(gone, came, c); } else { EmitLists(gone, came, c); }
    }
  }

  lemma EmitDistinct(gone: seq<Evidence>, came: seq<Evidence>)
    requires NoDuplicates(gone) && NoDuplicates(came)
    ensures NoDuplicates(Emit(gone, came))
  {
  }

  lemma EmitPair(gone: seq<Evidence>, came: seq<Evidence>, c: Change)
    requires |gone| == 1 && |came| == 1
    ensures c in Emit(gone, came) <==> c.Modified? && c.was in gone && c.now in came
  {
    assert forall e :: e in gone <==> e == gone[0];
    assert forall e :: e in came <==> e == came[0];
  }

  lemma EmitLists(gone: seq<Evidence>, came: seq<Evidence>, c: Change)
    requires !(|gone| == 1 && |came| == 1)
    ensures c in Emit(gone, came) <==> (c.Added? && c.now in came) || (c.Removed? && c.was in gone)
  {
    var out := Emit(gone, came);
    if c.Added? && c.now in came {
      var i :| 0 <= i < |came| && came[i] == c.now;
      assert out[i] == c;
    }
    if c.Removed? && c.was in gone {
      var i :| 0 <= i < |gone| && gone[i] == c.was;
      assert out[|came| + i] == c;
    }
  }

  /** The loop of `diff` over the sorted kinds. */
  ghost predicate Emitted(was: seq<Evidence>, now: seq<Evidence>, kinds: seq<Str>, out: seq<Change>) {
    NoDuplicates(out) && forall c :: c in out <==> IsChange(was, now, c) && Subject(c).kind in kinds
  }

  lemma EmitNext(was: seq<Evidence>, now: seq<Evidence>, kinds: seq<Str>, out: seq<Change>, kind: Str)
    requires Emitted(was, now, kinds, out) && kind !in kinds && NoDuplicates(was) && NoDuplicates(now)
    ensures Emitted(was, now, kinds + [kind], out + Emit(OnlyOf(was, now, kind), OnlyOf(now, was, kind)))
  {
    var more := Emit(OnlyOf(was, now, kind), OnlyOf(now, was, kind));
    EmitChanges(was, now, kind);
    var all := out + more;
    forall i, j | 0 <= i < j < |all| ensures all[i] != all[j] {
      if i < |out| <= j { assert all[i] in out && all[j] in more; }
    }
  }

  /** `diff`. */
  method Diff(was: seq<Evidence>, now: seq<Evidence>) returns (out: seq<Change>)
    requires NoDuplicates(was) && NoDuplicates(now)
    ensures IsDiff(was, now, out)
  {
    var oldSet := Members(was);
    var newSet := Members(now);
    var removed := Collect(was, newSet, now);
    var added := Collect(now, oldSet, was);
    LessOrder();
    var kinds := SortedKeys(removed.Keys + added.Keys, Less);
    out := [];
    var i := 0;
    while i < |kinds|
      invariant 0 <= i <= |kinds| && Emitted(was, now, kinds[..i], out)
    {
      assert kinds[..i + 1] == kinds[..i] + [kinds[i]];
      EmitNext(was, now, kinds[..i], out, kinds[i]);
      out := out + Emit(Get(removed, kinds[i]), Get(added, kinds[i]));
      i := i + 1;
    }
    assert kinds[..|kinds|] == kinds;
    KindsCover(was, now, removed, added, kinds);
    AllEmitted(was, now, kinds, out);
    SameElements(Sort(out, ChangeLess), out);
    out := Sort(out, ChangeLess);
  }

  lemma KindsCover(was: seq<Evidence>, now: seq<Evidence>, removed: map<Str, seq<Evidence>>,
      added: map<Str, seq<Evidence>>, kinds: seq<Str>)
    requires Collects(removed, was, now) && Collects(added, now, was)
    requires forall k :: k in kinds <==> k in removed.Keys + added.Keys
    ensures forall k :: k in kinds <==> OnlyOf(was, now, k) != [] || OnlyOf(now, was, k) != []
  {
    forall k ensures k in kinds <==> OnlyOf(was, now, k) != [] || OnlyOf(now, was, k) != [] {
      assert Get(removed, k) == OnlyOf(was, now, k) && Get(added, k) == OnlyOf(now, was, k);
    }
  }

  lemma AllEmitted(was: seq<Evidence>, now: seq<Evidence>, kinds: seq<Str>, out: seq<Change>)
    requires Emitted(was, now, kinds, out) && NoDuplicates(was) && NoDuplicates(now)
    requires forall k :: k in kinds <==> OnlyOf(was, now, k) != [] || OnlyOf(now, was, k) != []
    ensures Ascends(Sort(out, ChangeLess), ChangeLess)
    ensures forall c :: c in out <==> IsChange(was, now, c)
  {
    forall c | IsChange(was, now, c) ensures Subject(c).kind in kinds {
      var k := Subject(c).kind;
      OnlyOfHas(was, now, k);
      OnlyOfHas(now, was, k);
      assert Subject(c) in OnlyOf(was, now, k) || Subject(c) in OnlyOf(now, was, k);
    }
    ChangeOrder();
    forall x, y | x in out && y in out && !ChangeLess(x, y) && !ChangeLess(y, x) ensures x == y {
      ChangesDiffer(was, now, x, y);
    }
    SortAscends(out, ChangeLess);
  }

  // ----- a diff is a patch

  /** `base` with every old value of the changes taken out and every new one put in. */
  ghost predicate Patches(changes: seq<Change>, base: seq<Evidence>, now: seq<Evidence>) {
    forall e :: e in now <==>
      (exists c | c in changes :: !c.Removed? && c.now == e) ||
          (e in base && forall c | c in changes && !c.Added? :: c.was != e)
  }

  /** Applied to the old evidence the difference gives the new, and it is empty exactly when the sets are equal. */
  lemma DiffIsPatch(was: seq<Evidence>, now: seq<Evidence>, changes: seq<Change>)
    requires NoDuplicates(was) && NoDuplicates(now) && IsDiff(was, now, changes)
    ensures Patches(changes, was, now)
    ensures changes == [] <==> forall e :: e in was <==> e in now
  {
    forall e ensures Only(was, now, e) <==> exists c | c in changes :: !c.Added? && c.was == e {
      if Only(was, now, e) { GoneListed(was, now, e, changes); }
    }
    forall e ensures Only(now, was, e) <==> exists c | c in changes :: !c.Removed? && c.now == e {
      if Only(now, was, e) { CameListed(was, now, e, changes); }
    }
    forall e ensures e in now <==>
      (exists c | c in changes :: !c.Removed? && c.now == e) ||
          (e in was && forall c | c in changes && !c.Added? :: c.was != e)
    {
      assert e in now <==> Only(now, was, e) || (e in was && !Only(was, now, e));
    }
    assert changes == [] || changes[0] in changes;
  }

  lemma GoneListed(was: seq<Evidence>, now: seq<Evidence>, e: Evidence, changes: seq<Change>)
    requires NoDuplicates(was) && NoDuplicates(now) && IsDiff(was, now, changes) && Only(was, now, e)
    ensures exists c | c in changes :: !c.Added? && c.was == e
  {
    OnlyOfHas(now, was, e.kind);
    if Replaces(was, now, e.kind) {
      var n := OnlyOf(now, was, e.kind)[0];
      assert n in OnlyOf(now, was, e.kind);
      assert IsChange(was, now, Modified(e, n));
    } else {
      assert IsChange(was, now, Removed(e));
    }
  }

  lemma CameListed(was: seq<Evidence>, now: seq<Evidence>, e: Evidence, changes: seq<Change>)
    requires NoDuplicates(was) && NoDuplicates(now) && IsDiff(was, now, changes) && Only(now, was, e)
    ensures exists c | c in changes :: !c.Removed? && c.now == e
  {
    OnlyOfHas(was, now, e.kind);
    if Replaces(was, now, e.kind) {
      var o := OnlyOf(was, now, e.kind)[0];
      assert o in OnlyOf(was, now, e.kind);
      assert IsChange(was, now, Modified(o, e));
    } else {
      assert IsChange(was, now, Added(e));
    }
  }

  // ----- sources

  datatype SourceKind = Website | Api | Local

  /** "website", "api", "local" */
  function KindText(kind: SourceKind): (s: Str)
    ensures forall i | 0 <= i < |s| :: s[i] != 0
  {
    match kind
    case Website => [0x77, 0x65, 0x62, 0x73, 0x69, 0x74, 0x65]
    case Api => [0x61, 0x70, 0x69]
    case Local => [0x6c, 0x6f, 0x63, 0x61, 0x6c]
  }

  datatype SourceId = SourceId(name: Str, kind: SourceKind)

  /** `sourceKey`. */
  function KeyText(id: SourceId): Str { id.name + [0] + KindText(id.kind) }

  predicate KeyLess(a: SourceId, b: SourceId) { Less(KeyText(a), KeyText(b)) }

  lemma LastZero(a: Str, s: Str, b: Str, t: Str)
    requires a + [0] + s == b + [0] + t
    requires forall i | 0 <= i < |t| :: t[i] != 0
    ensures |a| <= |b|
  {
    var all := b + [0] + t;
    assert (a + [0] + s)[|a|] == 0;
    assert forall i | |b| < i < |all| :: all[i] == t[i - |b| - 1];
  }

  /** The separator makes the key unambiguous, even for names that contain it. */
  lemma KeyInjective(a: SourceId, b: SourceId)
    requires KeyText(a) == KeyText(b)
    ensures a == b
  {
    var x, y := KindText(a.kind), KindText(b.kind);
    LastZero(a.name, x, b.name, y);
    LastZero(b.name, y, a.name, x);
    assert a.name == KeyText(a)[..|a.name|] && b.name == KeyText(b)[..|b.name|];
    assert x == KeyText(a)[|a.name| + 1..] && y == KeyText(b)[|b.name| + 1..];
    assert x[0] == y[0];
  }

  lemma KeyOrder()
    ensures TotalOrder(KeyLess)
  {
    LessOrder();
    forall a, b ensures a == b || KeyLess(a, b) || KeyLess(b, a) {
      LessTrichotomy(KeyText(a), KeyText(b));
      if KeyText(a) == KeyText(b) { KeyInjective(a, b); }
    }
    forall a, b ensures !(KeyLess(a, b) && KeyLess(b, a)) {
      LessTrichotomy(KeyText(a), KeyText(b));
    }
    forall a, b, c | !KeyLess(b, a) && !KeyLess(c, b) ensures !KeyLess(c, a) {
      assert !Less(KeyText(b), KeyText(a)) && !Less(KeyText(c), KeyText(b));
    }
  }

  /** One source's part of a baseline; a provenance entry is its encoding. */
  datatype SourceState = SourceState(id: SourceId, provenance: seq<Str>, evidence: seq<Evidence>)

  predicate StateLess(a: SourceState, b: SourceState) { KeyLess(a.id, b.id) }

  /** A baseline's sources: one per key, in key order, each with evidence in canonical order. */
  ghost predicate SourcesOk(sources: seq<SourceState>) {
    && Ascends(sources, StateLess)
    && forall i | 0 <= i < |sources| :: Ascends(sources[i].evidence, EvidenceLess)
  }

  ghost predicate HasSource(sources: seq<SourceState>, id: SourceId) { exists s | s in sources :: s.id == id }

  lemma AscendsDistinct<T(!new)>(s: seq<T>, less: (T, T) -> bool)
    requires WeakOrder(less) && Ascends(s, less)
    ensures NoDuplicates(s)
  {
    forall i, j | 0 <= i < j < |s| ensures s[i] != s[j] {
      assert less(s[i], s[j]);
    }
  }

  // ----- merge

  /** A baseline.  `list` is what its encoding shows of the sources: nothing at all for a nil slice. */
  datatype Snapshot = Snapshot(revision: u64, list: Option<seq<SourceState>>) {
    function Sources(): seq<SourceState> { if list.Some? then list.value else [] }
  }

  /** `newSnapshot`: the baseline of a target that has none, with an empty slice that is not nil. */
  const NEW_SNAPSHOT := Snapshot(0, Some([]))

  /** Sources appended to a nil slice: it stays nil when there are none. */
  function Copied(sources: seq<SourceState>): Option<seq<SourceState>> {
    if sources == [] then None else Some(sources)
  }

  ghost predicate UniqueIds(sources: seq<SourceState>) {
    forall i, j | 0 <= i < j < |sources| :: sources[i].id != sources[j].id
  }

  /** `next` holds the sources of `current` and, for every other key, what `was` holds. */
  ghost predicate Overrides(was: seq<SourceState>, current: seq<SourceState>, next: seq<SourceState>) {
    forall s :: s in next <==> s in current || (s in was && !HasSource(current, s.id))
  }

  /** The changes of one merge: for each current source with a baseline the difference from it, in order. */
  ghost predicate Events(was: seq<SourceState>, current: seq<SourceState>, parts: seq<seq<Change>>) {
    && |parts| == |current|
    && forall i | 0 <= i < |parts| :: EventsOf(was, current[i], parts[i])
  }

  ghost predicate EventsOf(was: seq<SourceState>, now: SourceState, part: seq<Change>) {
    && (!HasSource(was, now.id) ==> part == [])
    && forall s | s in was && s.id == now.id :: IsDiff(s.evidence, now.evidence, part)
  }

  function Concat(parts: seq<seq<Change>>): seq<Change> {
    if parts == [] then [] else Concat(parts[..|parts| - 1]) + parts[|parts| - 1]
  }

  /** The first source with this key, or -1. */
  method Find(sources: seq<SourceState>, id: SourceId) returns (found: int)
    ensures -1 <= found < |sources|
    ensures found < 0 <==> !HasSource(sources, id)
    ensures found >= 0 ==> sources[found].id == id
  {
    found := 0;
    while found < |sources|
      invariant 0 <= found <= |sources|
      invariant forall j | 0 <= j < found :: sources[j].id != id
    {
      if sources[found].id == id {
        assert sources[found] in sources;
        return;
      }
      found := found + 1;
    }
    found := -1;
  }

  lemma StateOrder()
    ensures WeakOrder(StateLess)
  {
    KeyOrder();
    forall a, b ensures !(StateLess(a, b) && StateLess(b, a)) {
      assert !(KeyLess(a.id, b.id) && KeyLess(b.id, a.id));
    }
    forall a, b, c | !StateLess(b, a) && !StateLess(c, b) ensures !StateLess(c, a) {
      assert !KeyLess(b.id, a.id) && !KeyLess(c.id, b.id);
    }
  }

  lemma SourcesUnique(sources: seq<SourceState>)
    requires Ascends(sources, StateLess)
    ensures UniqueIds(sources)
  {
    KeyOrder();
    forall i, j | 0 <= i < j < |sources| ensures sources[i].id != sources[j].id {
      assert StateLess(sources[i], sources[j]);
    }
  }

  lemma SameSource(sources: seq<SourceState>, a: SourceState, b: SourceState)
    requires UniqueIds(sources) && a in sources && b in sources && a.id == b.id
    ensures a == b
  {
    var i :| 0 <= i < |sources| && sources[i] == a;
    var j :| 0 <= j < |sources| && sources[j] == b;
  }

  lemma HasWith(sources: seq<SourceState>, now: SourceState, id: SourceId)
    ensures HasSource(sources + [now], id) <==> HasSource(sources, id) || now.id == id
  {
    if HasSource(sources, id) {
      var s :| s in sources && s.id == id;
      assert s in sources + [now];
    }
    assert now in sources + [now];
  }

  /** The list of `merge` after the sources `part`: it overrides `was` with them, in no particular order. */
  ghost predicate Merging(was: seq<SourceState>, part: seq<SourceState>, list: seq<SourceState>) {
    UniqueIds(list) && Overrides(was, part, list)
  }

  lemma MergeNew(was: seq<SourceState>, part: seq<SourceState>, list: seq<SourceState>, now: SourceState)
    requires Merging(was, part, list) && !HasSource(list, now.id)
    ensures Merging(was, part + [now], list + [now])
  {
    forall s ensures s in list + [now] <==> s in part + [now] || (s in was && !HasSource(part + [now], s.id)) {
      HasWith(part, now, s.id);
      assert s in list ==> HasSource(list, s.id);
    }
    forall i | 0 <= i < |list| ensures list[i].id != now.id {
      assert list[i] in list;
    }
  }

  lemma MergeOver(was: seq<SourceState>, part: seq<SourceState>, list: seq<SourceState>, found: nat, now: SourceState)
    requires Merging(was, part, list) && found < |list| && list[found].id == now.id && !HasSource(part, now.id)
    ensures list[found] in was && Merging(was, part + [now], list[found := now])
  {
    var after := list[found := now];
    assert list[found] in list;
    forall s ensures s in after <==> s in part + [now] || (s in was && !HasSource(part + [now], s.id)) {
      HasWith(part, now, s.id);
      assert s in part ==> HasSource(part, s.id);
      assert s in after <==> s == now || (s in list && s.id != now.id) by { Replaced(list, found, now, s); }
    }
  }

  lemma Replaced(list: seq<SourceState>, found: nat, now: SourceState, s: SourceState)
    requires UniqueIds(list) && found < |list| && list[found].id == now.id
    ensures s in list[found := now] <==> s == now || (s in list && s.id != now.id)
  {
    var after := list[found := now];
    assert after[found] == now;
    if s in list && s.id != now.id {
      var i :| 0 <= i < |list| && list[i] == s;
      assert after[i] == s;
    }
  }

  lemma EventsWith(was: seq<SourceState>, done: seq<SourceState>, parts: seq<seq<Change>>, now: SourceState,
      part: seq<Change>)
    requires Events(was, done, parts) && EventsOf(was, now, part)
    ensures Events(was, done + [now], parts + [part]) && Concat(parts + [part]) == Concat(parts) + part
  {
    assert (parts + [part])[..|parts|] == parts;
  }

  /** One turn of the loop of `merge`. */
  method MergeOne(ghost was: seq<SourceState>, ghost done: seq<SourceState>, list: seq<SourceState>, now: SourceState)
    returns (list': seq<SourceState>, part: seq<Change>, isNew: bool)
    requires SourcesOk(was) && Merging(was, done, list) && !HasSource(done, now.id) && NoDuplicates(now.evidence)
    ensures Merging(was, done + [now], list') && EventsOf(was, now, part)
    ensures |list'| == |list| + (if isNew then 1 else 0)
  {
    var found := Find(list, now.id);
    if found < 0 {
      NoBaseline(was, done, list, now.id);
      MergeNew(was, done, list, now);
      return list + [now], [], true;
    }
    SourcesUnique(was);
    MergeOver(was, done, list, found, now);
    EvidenceDistinct(was, list[found]);
    part := Diff(list[found].evidence, now.evidence);
    OneBaseline(was, list[found], now, part);
    list', isNew := list[found := now], false;
  }

  /** The loop of `merge`. */
  method MergeAll(was: seq<SourceState>, current: seq<SourceState>)
    returns (list: seq<SourceState>, events: seq<Change>, created: nat, parts: seq<seq<Change>>)
    requires SourcesOk(was) && SourcesOk(current)
    ensures Merging(was, current, list) && |list| == |was| + created
    ensures Events(was, current, parts) && events == Concat(parts)
  {
    list, events, created, parts := was, [], 0, [];
    SourcesUnique(was);
    SourcesUnique(current);
    var i := 0;
    while i < |current|
      invariant 0 <= i <= |current| && |list| == |was| + created
      invariant Merging(was, current[..i], list)
      invariant Events(was, current[..i], parts) && events == Concat(parts)
    {
      var now := current[i];
      TakeNext(current, i);
      Fresh(current, i);
      EvidenceDistinct(current, now);
      var part, isNew;
      list, part, isNew := MergeOne(was, current[..i], list, now);
      EventsWith(was, current[..i], parts, now, part);
      parts, events := parts + [part], events + part;
      created := if isNew then created + 1 else created;
      i := i + 1;
    }
    assert current[..|current|] == current;
  }

  lemma TakeNext<T>(s: seq<T>, i: nat)
    requires i < |s|
    ensures s[..i + 1] == s[..i] + [s[i]]
  {
  }

  /** What `merge` makes of a baseline and the good sources of an observation, with the changes source by source. */
  ghost predicate Merged(was: Snapshot, current: seq<SourceState>, next: Snapshot, parts: seq<seq<Change>>) {
    && SourcesOk(was.Sources()) && SourcesOk(next.Sources()) && Overrides(was.Sources(), current, next.Sources())
    && next.list == Copied(next.Sources())
    && next.revision == was.revision + (if next.list == was.list then 0 else 1)
    && Events(was.Sources(), current, parts)
  }

  /** `merge`. */
  method Merge(was: Snapshot, current: seq<SourceState>)
    returns (next: Snapshot, events: seq<Change>, created: nat, parts: seq<seq<Change>>)
    requires SourcesOk(was.Sources()) && SourcesOk(current) && was.revision < TWO_64 - 1
    ensures Merged(was, current, next, parts) && events == Concat(parts)
    ensures |next.Sources()| == |was.Sources()| + created
  {
    var list;
    list, events, created, parts := MergeAll(was.Sources(), current);
    var sources := Sort(list, StateLess);
    Ordered(was.Sources(), current, list);
    var copy := Copied(sources);
    next := Snapshot(if copy == was.list then was.revision else was.revision + 1, copy);
  }

  /**
   Exactly when the revision rises: when the sources changed, or when an empty list that is not nil meets no good
   source.
   */
  lemma RevisionRises(was: Snapshot, current: seq<SourceState>, next: Snapshot, parts: seq<seq<Change>>)
    requires Merged(was, current, next, parts)
    ensures next.revision == was.revision + 1 <==>
              next.Sources() != was.Sources() || (was.list == Some([]) && current == [])
    ensures next.revision == was.revision || next.revision == was.revision + 1
  {
    if was.list == Some([]) {
      NoneMerged(current, next.Sources());
    }
  }

  lemma NoneMerged(current: seq<SourceState>, next: seq<SourceState>)
    requires Overrides([], current, next)
    ensures next == [] <==> current == []
  {
    if current != [] { assert current[0] in next; }
    if next != [] { assert next[0] in current; }
  }

  /** A new target none of whose sources is good gets a new revision although nothing changed. */
  lemma RevisionRisesForNothing(next: Snapshot, parts: seq<seq<Change>>)
    requires Merged(NEW_SNAPSHOT, [], next, parts)
    ensures next == Snapshot(1, None) && next.Sources() == NEW_SNAPSHOT.Sources() && parts == []
  {
    NoneMerged([], next.Sources());
  }

  lemma Fresh(current: seq<SourceState>, i: nat)
    requires UniqueIds(current) && i < |current|
    ensures !HasSource(current[..i], current[i].id)
  {
  }

  lemma EvidenceDistinct(sources: seq<SourceState>, s: SourceState)
    requires SourcesOk(sources) && s in sources
    ensures NoDuplicates(s.evidence)
  {
    EvidenceOrder();
    AscendsDistinct(s.evidence, EvidenceLess);
  }

  lemma NoBaseline(was: seq<SourceState>, part: seq<SourceState>, list: seq<SourceState>, id: SourceId)
    requires Overrides(was, part, list) && !HasSource(list, id) && !HasSource(part, id)
    ensures !HasSource(was, id)
  {
    forall s | s in was ensures s.id != id {
      assert s in list ==> s.id != id;
    }
  }

  lemma OneBaseline(was: seq<SourceState>, s: SourceState, now: SourceState, part: seq<Change>)
    requires UniqueIds(was) && s in was && s.id == now.id && IsDiff(s.evidence, now.evidence, part)
    ensures EventsOf(was, now, part)
  {
    forall t | t in was && t.id == now.id ensures IsDiff(t.evidence, now.evidence, part) {
      SameSource(was, s, t);
    }
  }

  lemma Ordered(was: seq<SourceState>, current: seq<SourceState>, list: seq<SourceState>)
    requires SourcesOk(was) && SourcesOk(current) && Merging(was, current, list)
    ensures SourcesOk(Sort(list, StateLess)) && Overrides(was, current, Sort(list, StateLess))
  {
    var out := Sort(list, StateLess);
    StateOrder();
    KeyOrder();
    forall x, y | x in list && y in list && !StateLess(x, y) && !StateLess(y, x) ensures x == y {
      assert x.id == y.id || KeyLess(x.id, y.id) || KeyLess(y.id, x.id);
      SameSource(list, x, y);
    }
    SortAscends(list, StateLess);
    SameElements(out, list);
    forall i | 0 <= i < |out| ensures Ascends(out[i].evidence, EvidenceLess) {
      assert out[i] in list;
    }
  }

  lemma NoSelfDiff(evidence: seq<Evidence>, part: seq<Change>)
    requires IsDiff(evidence, evidence, part)
    ensures part == []
  {
    ChangeOrder();
    AscendingUnique(part, [], ChangeLess);
  }

  /** Observing the same sources again changes nothing: no event, no new source, no new revision. */
  lemma MergeQuiescent(was: Snapshot, current: seq<SourceState>, next: Snapshot, first: seq<seq<Change>>,
      again: Snapshot, parts: seq<seq<Change>>)
    requires SourcesOk(current) && Merged(was, current, next, first) && Merged(next, current, again, parts)
    ensures again == next && Concat(parts) == [] && forall i | 0 <= i < |parts| :: parts[i] == []
  {
    SameAgain(was.Sources(), current, next.Sources(), again.Sources());
    forall i | 0 <= i < |parts| ensures parts[i] == [] {
      assert EventsOf(next.Sources(), current[i], parts[i]);
      assert current[i] in current && current[i] in next.Sources();
      NoSelfDiff(current[i].evidence, parts[i]);
    }
    ConcatEmpty(parts);
  }

  lemma SameAgain(was: seq<SourceState>, current: seq<SourceState>, next: seq<SourceState>, again: seq<SourceState>)
    requires SourcesOk(next) && SourcesOk(again) && Overrides(was, current, next) && Overrides(next, current, again)
    ensures again == next
  {
    forall s ensures s in again <==> s in next {
      assert s in current ==> HasSource(current, s.id);
    }
    StateOrder();
    AscendingUnique(again, next, StateLess);
  }

  lemma {:induction false} ConcatEmpty(parts: seq<seq<Change>>)
    requires forall i | 0 <= i < |parts| :: parts[i] == []
    ensures Concat(parts) == []
    decreases |parts|
  {
    if parts != [] { ConcatEmpty(parts[..|parts| - 1]); }
  }

  lemma CanonicalUnique(clean: Cleaner, items: seq<Evidence>, a: seq<Evidence>, b: seq<Evidence>)
    requires IsCanonical(clean, items, a)
    ensures IsCanonical(clean, items, b) ==> a == b
  {
    if IsCanonical(clean, items, b) {
      EvidenceOrder();
      AscendingUnique(a, b, EvidenceLess);
    }
  }

  // ----- the baseline parser

  /** Whether a source's name and provenance are its own and survive redaction. */
  type Vetting = SourceState -> bool

  function EvidenceTotal(sources: seq<SourceState>): nat {
    if sources == [] then 0 else EvidenceTotal(sources[..|sources| - 1]) + |sources[|sources| - 1].evidence|
  }

  lemma {:induction false} EvidenceTotalPrefix(sources: seq<SourceState>, k: nat)
    requires k <= |sources|
    ensures EvidenceTotal(sources[..k]) <= EvidenceTotal(sources)
    decreases |sources|
  {
    if k == |sources| {
      assert sources[..k] == sources;
    } else {
      EvidenceTotalPrefix(sources[..|sources| - 1], k);
      assert sources[..|sources| - 1][..k] == sources[..k];
    }
  }

  ghost predicate SourceParses(clean: Cleaner, vets: Vetting, sources: seq<SourceState>, i: nat)
    requires i < |sources|
  {
    && sources[i].id.name != [] && (i > 0 ==> KeyLess(sources[i - 1].id, sources[i].id))
    && vets(sources[i]) && EvidenceParses(clean, sources[i].evidence)
  }

  /** Everything `parseState` asks of the contents of a baseline. */
  ghost predicate StateParses(clean: Cleaner, vets: Vetting, s: Snapshot) {
    && s.revision < TWO_64 - 1 && |s.Sources()| <= MAX_ROWS && EvidenceTotal(s.Sources()) <= MAX_EVIDENCE
    && forall i | 0 <= i < |s.Sources()| :: SourceParses(clean, vets, s.Sources(), i)
  }

  /** `parseState`, of a text that is the encoding of `s` for its own target. */
  method ParseState(clean: Cleaner, vets: Vetting, s: Snapshot) returns (ok: bool)
    ensures ok <==> StateParses(clean, vets, s)
  {
    var sources := s.Sources();
    if s.revision == TWO_64 - 1 || |sources| > MAX_ROWS {
      return false;
    }
    var total := 0;
    var i := 0;
    while i < |sources|
      invariant 0 <= i <= |sources| && total == EvidenceTotal(sources[..i]) <= MAX_EVIDENCE
      invariant forall j | 0 <= j < i :: SourceParses(clean, vets, sources, j)
    {
      var ok' := ParseSource(clean, vets, sources, i);
      assert sources[..i + 1][..i] == sources[..i];
      EvidenceTotalPrefix(sources, i + 1);
      total := total + |sources[i].evidence|;
      if !ok' || total > MAX_EVIDENCE {
        return false;
      }
      i := i + 1;
    }
    assert sources[..i] == sources;
    ok := true;
  }

  method ParseSource(clean: Cleaner, vets: Vetting, sources: seq<SourceState>, i: nat) returns (ok: bool)
    requires i < |sources|
    ensures ok <==> SourceParses(clean, vets, sources, i)
  {
    var s := sources[i];
    if s.id.name == [] || (i > 0 && !KeyLess(sources[i - 1].id, s.id)) || !vets(s) {
      return false;
    }
    var again := CanonicalEvidence(clean, s.evidence);
    if again.Some? { CanonicalUnique(clean, s.evidence, again.value, s.evidence); }
    ok := again == Some(s.evidence);
  }

  // ----- projecting an observation

  datatype Status = Unspecified | Found | Absent | Failing

  /** A normalised row. */
  datatype Row = Row(
    id: SourceId, status: Status, error: Str, metadata: map<Str, Str>, evidence: seq<Evidence>, provenance: Str)

  /** A metadata entry, in lower case, by which a source says that its answer is not whole. */
  predicate Admits(k: Str, v: Str) {
    || ((Contains(k, Ascii("truncat")) || k == Ascii("partial")) && v == Ascii("true"))
    || (EndsWith(k, Ascii("_status")) && v in {Ascii("partial"), Ascii("unavailable"), Ascii("unknown")})
    || (k == Ascii("history_stop") && EndsWith(v, Ascii("_limit")))
    || ((k == Ascii("complete") || k == Ascii("input_values_complete")) && v == Ascii("false"))
  }

  predicate AdmitsPart(metadata: map<Str, Str>) { exists k | k in metadata :: Admits(Lower(k), Lower(metadata[k])) }

  /** `incomplete`. */
  predicate Incomplete(r: Row) { !Conclusive(r) || r.error != [] || AdmitsPart(r.metadata) }

  /** The loop of `incomplete` meets the metadata in any order. */
  method CheckIncomplete(r: Row) returns (found: bool)
    ensures found <==> Incomplete(r)
  {
    if !Conclusive(r) || r.error != [] {
      return true;
    }
    var rest := r.metadata.Keys;
    while rest != {}
      invariant rest <= r.metadata.Keys
      invariant forall k | k in r.metadata && k !in rest :: !Admits(Lower(k), Lower(r.metadata[k]))
    {
      var k :| k in rest;
      if Admits(Lower(k), Lower(r.metadata[k])) {
        return true;
      }
      rest := rest - {k};
    }
    found := false;
  }

  /** "result_status", "found", "not_found" */
  const RESULT_STATUS: Str := [0x72, 0x65, 0x73, 0x75, 0x6c, 0x74, 0x5f, 0x73, 0x74, 0x61, 0x74, 0x75, 0x73]
  const FOUND: Str := [0x66, 0x6f, 0x75, 0x6e, 0x64]
  const NOT_FOUND: Str := [0x6e, 0x6f, 0x74, 0x5f, 0x66, 0x6f, 0x75, 0x6e, 0x64]

  predicate Conclusive(r: Row) { r.status.Found? || r.status.Absent? }

  /** An unspecified status, a failure or a partial answer spoils its source. */
  predicate Bad(r: Row) { r.status.Unspecified? || Incomplete(r) }

  function RowEvidence(r: Row): seq<Evidence> {
    r.evidence + [Evidence(RESULT_STATUS, if r.status.Found? then FOUND else NOT_FOUND)]
  }

  function EvidencePart(id: SourceId): Row -> seq<Evidence> {
    (r: Row) => if r.id == id && !Bad(r) then RowEvidence(r) else []
  }

  function ProvenancePart(id: SourceId): Row -> seq<Str> {
    (r: Row) => if r.id == id && !Bad(r) then [r.provenance] else []
  }

  /** The evidence that the usable rows of a source bring, in row order. */
  function EvidenceOf(rows: seq<Row>, id: SourceId): seq<Evidence> { FlatMap(rows, EvidencePart(id)) }

  function ProvenanceOf(rows: seq<Row>, id: SourceId): seq<Str> { FlatMap(rows, ProvenancePart(id)) }

  ghost predicate Attempted(rows: seq<Row>, id: SourceId) { exists r | r in rows :: r.id == id }

  ghost predicate Spoiled(rows: seq<Row>, id: SourceId) { exists r | r in rows :: r.id == id && Bad(r) }

  ghost predicate Reported(rows: seq<Row>, id: SourceId) { exists r | r in rows :: r.id == id && Conclusive(r) }

  ghost predicate AnyBad(rows: seq<Row>) { exists r | r in rows :: Bad(r) }

  ghost predicate BadIdentity(rows: seq<Row>) { exists r | r in rows :: r.id.name == [] || |r.id.name| > MAX_SOURCE }

  datatype Class = Good | Partial | Failed

  /** An error that no row explains counts against every source. */
  ghost function ClassOf(rows: seq<Row>, searchFailed: bool, id: SourceId): Class {
    if !Spoiled(rows, id) && !(searchFailed && !AnyBad(rows)) then Good
    else if Reported(rows, id) then Partial
    else Failed
  }

  ghost function OfClass(rows: seq<Row>, searchFailed: bool, keys: seq<SourceId>, c: Class): seq<SourceId> {
    if keys == [] then []
    else
      var n := |keys| - 1;
      OfClass(rows, searchFailed, keys[..n], c) + (if ClassOf(rows, searchFailed, keys[n]) == c then [keys[n]] else [])
  }

  datatype Projection = Projection(good: seq<SourceState>, attempted: seq<SourceId>, failed: seq<SourceId>,
      partial: seq<SourceId>)

  ghost predicate IsState(clean: Cleaner, rows: seq<Row>, s: SourceState) {
    && IsCanonical(clean, EvidenceOf(rows, s.id), s.evidence)
    && Ascends(s.provenance, Less) && forall x :: x in s.provenance <==> x in ProvenanceOf(rows, s.id)
  }

  ghost predicate States(clean: Cleaner, rows: seq<Row>, ids: seq<SourceId>, good: seq<SourceState>) {
    |good| == |ids| && forall i | 0 <= i < |good| :: good[i].id == ids[i] && IsState(clean, rows, good[i])
  }

  /** The projection of `rows` with the attempted sources `keys`. */
  ghost predicate IsProjection(clean: Cleaner, rows: seq<Row>, searchFailed: bool, keys: seq<SourceId>, p: Projection) {
    && p.attempted == keys
    && p.partial == OfClass(rows, searchFailed, keys, Partial) && p.failed == OfClass(rows, searchFailed, keys, Failed)
    && States(clean, rows, OfClass(rows, searchFailed, keys, Good), p.good)
  }

  ghost predicate IsKeys(rows: seq<Row>, keys: seq<SourceId>) {
    Ascends(keys, KeyLess) && forall k :: k in keys <==> Attempted(rows, k)
  }

  ghost predicate Unclean(clean: Cleaner, rows: seq<Row>, searchFailed: bool, k: SourceId) {
    Attempted(rows, k) && ClassOf(rows, searchFailed, k) == Good && !Cleanable(clean, EvidenceOf(rows, k))
  }

  /** Everything about the outcome of `project`. */
  ghost predicate Projects(clean: Cleaner, rows: seq<Row>, searchFailed: bool, r: Option<Projection>) {
    && (r.None? <==> BadIdentity(rows) || exists k :: Unclean(clean, rows, searchFailed, k))
    && (r.Some? ==>
        IsKeys(rows, r.value.attempted) && IsProjection(clean, rows, searchFailed, r.value.attempted, r.value))
  }

  datatype Group = Group(evidence: seq<Evidence>, provenance: seq<Str>)

  /** The maps of `project` after the rows `rows`. */
  datatype Gathered = Gathered(groups: map<SourceId, Group>, bad: set<SourceId>, reported: set<SourceId>,
      explicit: bool)

  ghost predicate IsGathered(rows: seq<Row>, g: Gathered) {
    && (forall k :: k in g.groups <==> Attempted(rows, k))
    && (forall k | k in g.groups :: g.groups[k] == Group(EvidenceOf(rows, k), ProvenanceOf(rows, k)))
    && (forall k :: k in g.bad <==> Spoiled(rows, k))
    && (forall k :: k in g.reported <==> Reported(rows, k))
    && (g.explicit <==> AnyBad(rows))
  }

  function Gather(g: Gathered, r: Row): Gathered {
    var was := if r.id in g.groups then g.groups[r.id] else Group([], []);
    var now := if Bad(r) then was else Group(was.evidence + RowEvidence(r), was.provenance + [r.provenance]);
    Gathered(
      g.groups[r.id := now],
      if Bad(r) then g.bad + {r.id} else g.bad,
      if Conclusive(r) then g.reported + {r.id} else g.reported,
      g.explicit || Bad(r))
  }

  lemma {:induction false} NothingOf(rows: seq<Row>, id: SourceId)
    requires !Attempted(rows, id)
    ensures EvidenceOf(rows, id) == [] && ProvenanceOf(rows, id) == []
    decreases |rows|
  {
    if rows != [] {
      var n := |rows| - 1;
      assert rows[n] in rows;
      assert forall r | r in rows[..n] :: r in rows;
      NothingOf(rows[..n], id);
    }
  }

  lemma RowsWith(rows: seq<Row>, r: Row, k: SourceId)
    ensures Attempted(rows + [r], k) <==> Attempted(rows, k) || r.id == k
    ensures Spoiled(rows + [r], k) <==> Spoiled(rows, k) || (r.id == k && Bad(r))
    ensures Reported(rows + [r], k) <==> Reported(rows, k) || (r.id == k && Conclusive(r))
    ensures AnyBad(rows + [r]) <==> AnyBad(rows) || Bad(r)
  {
    assert forall x :: x in rows + [r] <==> x in rows || x == r;
  }

  lemma GroupWith(rows: seq<Row>, g: Gathered, r: Row, k: SourceId)
    requires IsGathered(rows, g) && (k in g.groups || r.id == k)
    ensures Gather(g, r).groups[k] == Group(EvidenceOf(rows + [r], k), ProvenanceOf(rows + [r], k))
  {
    FlatMapNext(rows, r, EvidencePart(k));
    FlatMapNext(rows, r, ProvenancePart(k));
    if k !in g.groups { NothingOf(rows, k); }
  }

  lemma GatherNext(rows: seq<Row>, g: Gathered, r: Row)
    requires IsGathered(rows, g)
    ensures IsGathered(rows + [r], Gather(g, r))
  {
    var all, next := rows + [r], Gather(g, r);
    forall k
      ensures k in next.groups <==> Attempted(all, k)
      ensures k in next.bad <==> Spoiled(all, k)
      ensures k in next.reported <==> Reported(all, k)
      ensures next.explicit <==> AnyBad(all)
    {
      RowsWith(rows, r, k);
    }
    RowsWith(rows, r, r.id);
    forall k | k in next.groups ensures next.groups[k] == Group(EvidenceOf(all, k), ProvenanceOf(all, k)) {
      GroupWith(rows, g, r, k);
    }
  }

  /** The duplicate-dropping loop over the sorted provenance. */
  method Unique(sorted: seq<Str>) returns (unique: seq<Str>)
    requires Sorted(sorted, Less)
    ensures Ascends(unique, Less) && forall x :: x in unique <==> x in sorted
  {
    unique := [];
    LessOrder();
    var i := 0;
    while i < |sorted|
      invariant 0 <= i <= |sorted| && Ascends(unique, Less)
      invariant forall x :: x in unique <==> x in sorted[..i]
      invariant unique != [] ==> unique[|unique| - 1] in sorted[..i]
    {
      var v := sorted[i];
      assert sorted[..i + 1] == sorted[..i] + [v];
      forall x | x in sorted[..i] ensures !Less(v, x) {
        var j :| 0 <= j < i && sorted[j] == x;
      }
      if |unique| == 0 || unique[|unique| - 1] != v {
        LastTops(unique, v);
        unique := unique + [v];
      }
      i := i + 1;
    }
    assert sorted[..|sorted|] == sorted;
  }

  lemma LastTops(unique: seq<Str>, v: Str)
    requires Ascends(unique, Less) && (unique == [] || unique[|unique| - 1] != v)
    requires forall x | x in unique :: !Less(v, x)
    ensures Ascends(unique + [v], Less)
  {
    LessOrder();
    if unique != [] {
      var n := |unique| - 1;
      assert unique[n] in unique;
      LessTrichotomy(unique[n], v);
      forall i | 0 <= i < n ensures Less(unique[i], v) {
        LessTransitive(unique[i], unique[n], v);
      }
    }
  }

  lemma IdentityNext(rows: seq<Row>, r: Row)
    ensures BadIdentity(rows + [r]) <==> BadIdentity(rows) || r.id.name == [] || |r.id.name| > MAX_SOURCE
  {
    assert forall x :: x in rows + [r] <==> x in rows || x == r;
  }

  /** `project`. */
  method Project(clean: Cleaner, rows: seq<Row>, searchFailed: bool) returns (r: Option<Projection>)
    ensures Projects(clean, rows, searchFailed, r)
  {
    var g, ok := GatherAll(rows);
    r := None;
    if ok {
      r := Settle(clean, rows, searchFailed, g);
    }
  }

  /** The first half of `project`: the rows grouped by source. */
  method GatherAll(rows: seq<Row>) returns (g: Gathered, ok: bool)
    ensures ok <==> !BadIdentity(rows)
    ensures ok ==> IsGathered(rows, g)
  {
    g := Gathered(map[], {}, {}, false);
    var i := 0;
    while i < |rows|
      invariant 0 <= i <= |rows| && IsGathered(rows[..i], g)
      invariant !BadIdentity(rows[..i])
    {
      if |rows[i].id.name| == 0 || |rows[i].id.name| > MAX_SOURCE {
        assert rows[i] in rows;
        return g, false;
      }
      IdentityNext(rows[..i], rows[i]);
      GatherNext(rows[..i], g, rows[i]);
      TakeNext(rows, i);
      g := Gather(g, rows[i]);
      i := i + 1;
    }
    assert rows[..|rows|] == rows;
    ok := true;
  }

  /** One source of the second half of `project`. */
  method SettleOne(clean: Cleaner, ghost rows: seq<Row>, searchFailed: bool, g: Gathered, k: SourceId)
    returns (c: Class, s: Option<SourceState>)
    requires IsGathered(rows, g) && k in g.groups
    ensures c == ClassOf(rows, searchFailed, k)
    ensures (c.Good? && s.None?) == Unclean(clean, rows, searchFailed, k)
    ensures s.Some? ==> c.Good? && s.value.id == k && IsState(clean, rows, s.value)
  {
    s := None;
    if k in g.bad || (searchFailed && !g.explicit) {
      c := if k in g.reported then Partial else Failed;
      return;
    }
    c := Good;
    var evidence := CanonicalEvidence(clean, g.groups[k].evidence);
    if evidence.Some? {
      var listed := g.groups[k].provenance;
      LessOrder();
      SortSorts(listed, Less);
      SameElements(Sort(listed, Less), listed);
      var provenance := Unique(Sort(listed, Less));
      s := Some(SourceState(k, provenance, evidence.value));
    }
  }

  function Extend(p: Projection, k: SourceId, c: Class, s: seq<SourceState>): Projection {
    Projection(
      p.good + s,
      p.attempted + [k],
      if c.Failed? then p.failed + [k] else p.failed,
      if c.Partial? then p.partial + [k] else p.partial)
  }

  lemma ProjectionNext(clean: Cleaner, rows: seq<Row>, searchFailed: bool, keys: seq<SourceId>, k: SourceId,
      p: Projection, s: seq<SourceState>)
    requires IsProjection(clean, rows, searchFailed, keys, p)
    requires var c := ClassOf(rows, searchFailed, k);
             if c.Good? then |s| == 1 && s[0].id == k && IsState(clean, rows, s[0]) else s == []
    ensures IsProjection(clean, rows, searchFailed, keys + [k], Extend(p, k, ClassOf(rows, searchFailed, k), s))
  {
    assert (keys + [k])[..|keys|] == keys;
    var ids := OfClass(rows, searchFailed, keys, Good);
    if ClassOf(rows, searchFailed, k).Good? {
      StatesWith(clean, rows, ids, p.good, k, s[0]);
      assert s == [s[0]];
    }
  }

  lemma StatesWith(clean: Cleaner, rows: seq<Row>, ids: seq<SourceId>, good: seq<SourceState>, k: SourceId,
      s: SourceState)
    requires States(clean, rows, ids, good) && s.id == k && IsState(clean, rows, s)
    ensures States(clean, rows, ids + [k], good + [s])
  {
  }

  ghost predicate AllClean(clean: Cleaner, rows: seq<Row>, searchFailed: bool, keys: seq<SourceId>) {
    forall k | k in keys :: !Unclean(clean, rows, searchFailed, k)
  }

  lemma CleanWith(clean: Cleaner, rows: seq<Row>, searchFailed: bool, keys: seq<SourceId>, k: SourceId)
    requires AllClean(clean, rows, searchFailed, keys) && !Unclean(clean, rows, searchFailed, k)
    ensures AllClean(clean, rows, searchFailed, keys + [k])
  {
  }

  /** The second half of `project`: the sources in key order. */
  method Settle(clean: Cleaner, ghost rows: seq<Row>, searchFailed: bool, g: Gathered) returns (r: Option<Projection>)
    requires IsGathered(rows, g) && !BadIdentity(rows)
    ensures Projects(clean, rows, searchFailed, r)
  {
    KeyOrder();
    var keys := SortedKeys(g.groups.Keys, KeyLess);
    assert IsKeys(rows, keys);
    r := SettleAll(clean, rows, searchFailed, g, keys);
    if r.Some? { assert forall k | Unclean(clean, rows, searchFailed, k) :: k in keys; }
  }

  method SettleAll(clean: Cleaner, ghost rows: seq<Row>, searchFailed: bool, g: Gathered, keys: seq<SourceId>)
    returns (r: Option<Projection>)
    requires IsGathered(rows, g) && forall k | k in keys :: k in g.groups
    ensures r.None? ==> exists k :: Unclean(clean, rows, searchFailed, k)
    ensures r.Some? ==>
              AllClean(clean, rows, searchFailed, keys) && IsProjection(clean, rows, searchFailed, keys, r.value)
  {
    var p := Projection([], [], [], []);
    var i := 0;
    while i < |keys|
      invariant 0 <= i <= |keys| && IsProjection(clean, rows, searchFailed, keys[..i], p)
      invariant AllClean(clean, rows, searchFailed, keys[..i])
    {
      var k := keys[i];
      TakeNext(keys, i);
      var c, s := SettleOne(clean, rows, searchFailed, g, k);
      if c.Good? && s.None? {
        return None;
      }
      CleanWith(clean, rows, searchFailed, keys[..i], k);
      var state := if s.Some? then [s.value] else [];
      ProjectionNext(clean, rows, searchFailed, keys[..i], k, p, state);
      p := Extend(p, k, c, state);
      i := i + 1;
    }
    assert keys[..|keys|] == keys;
    r := Some(p);
  }

  // ----- the projection does not depend on the order of the rows

  lemma EvidencePermuted(a: seq<Row>, b: seq<Row>, id: SourceId)
    requires multiset(a) == multiset(b)
    ensures multiset(EvidenceOf(a, id)) == multiset(EvidenceOf(b, id))
    ensures multiset(ProvenanceOf(a, id)) == multiset(ProvenanceOf(b, id))
  {
    FlatMapPermuted(a, b, EvidencePart(id));
    FlatMapPermuted(a, b, ProvenancePart(id));
  }

  lemma ClassPermuted(a: seq<Row>, b: seq<Row>, searchFailed: bool, id: SourceId)
    requires forall r :: r in a <==> r in b
    ensures ClassOf(a, searchFailed, id) == ClassOf(b, searchFailed, id) && (Attempted(a, id) <==> Attempted(b, id))
    ensures BadIdentity(a) <==> BadIdentity(b)
  {
    assert Spoiled(a, id) <==> Spoiled(b, id);
    assert Reported(a, id) <==> Reported(b, id);
    assert AnyBad(a) <==> AnyBad(b);
  }

  lemma {:induction false} OfClassPermuted(a: seq<Row>, b: seq<Row>, searchFailed: bool, keys: seq<SourceId>, c: Class)
    requires forall r :: r in a <==> r in b
    ensures OfClass(a, searchFailed, keys, c) == OfClass(b, searchFailed, keys, c)
    decreases |keys|
  {
    if keys != [] {
      OfClassPermuted(a, b, searchFailed, keys[..|keys| - 1], c);
      ClassPermuted(a, b, searchFailed, keys[|keys| - 1]);
    }
  }

  lemma YieldsPermuted(clean: Cleaner, x: seq<Evidence>, y: seq<Evidence>)
    requires multiset(x) == multiset(y)
    ensures Cleanable(clean, x) <==> Cleanable(clean, y)
    ensures forall e :: Yields(clean, x, e) <==> Yields(clean, y, e)
  {
    SameElements(x, y);
    assert |x| == |multiset(x)| && |y| == |multiset(y)|;
    assert forall i | 0 <= i < |x| :: x[i] in x;
    assert forall i | 0 <= i < |y| :: y[i] in y;
  }

  lemma StatePermuted(clean: Cleaner, a: seq<Row>, b: seq<Row>, s: SourceState, t: SourceState)
    requires multiset(a) == multiset(b) && s.id == t.id && IsState(clean, a, s) && IsState(clean, b, t)
    ensures s == t
  {
    EvidencePermuted(a, b, s.id);
    YieldsPermuted(clean, EvidenceOf(a, s.id), EvidenceOf(b, s.id));
    SameElements(ProvenanceOf(a, s.id), ProvenanceOf(b, s.id));
    EvidenceOrder();
    LessOrder();
    AscendingUnique(s.evidence, t.evidence, EvidenceLess);
    AscendingUnique(s.provenance, t.provenance, Less);
  }

  lemma UncleanPermuted(clean: Cleaner, a: seq<Row>, b: seq<Row>, searchFailed: bool, k: SourceId)
    requires multiset(a) == multiset(b)
    ensures Unclean(clean, a, searchFailed, k) <==> Unclean(clean, b, searchFailed, k)
  {
    SameElements(a, b);
    ClassPermuted(a, b, searchFailed, k);
    EvidencePermuted(a, b, k);
    YieldsPermuted(clean, EvidenceOf(a, k), EvidenceOf(b, k));
  }

  /** Whatever order the concurrent sources delivered their rows in, the outcome is the same. */
  lemma ProjectPermuted(clean: Cleaner, a: seq<Row>, b: seq<Row>, searchFailed: bool, r: Option<Projection>,
      t: Option<Projection>)
    requires multiset(a) == multiset(b) && Projects(clean, a, searchFailed, r) && Projects(clean, b, searchFailed, t)
    ensures r == t
  {
    SameElements(a, b);
    forall k ensures Unclean(clean, a, searchFailed, k) <==> Unclean(clean, b, searchFailed, k) {
      UncleanPermuted(clean, a, b, searchFailed, k);
    }
    assert BadIdentity(a) <==> BadIdentity(b);
    if r.Some? { ProjectionPermuted(clean, a, b, searchFailed, r.value, t.value); }
  }

  lemma ProjectionPermuted(clean: Cleaner, a: seq<Row>, b: seq<Row>, searchFailed: bool, p: Projection, q: Projection)
    requires multiset(a) == multiset(b) && IsKeys(a, p.attempted) && IsKeys(b, q.attempted)
    requires IsProjection(clean, a, searchFailed, p.attempted, p) &&
              IsProjection(clean, b, searchFailed, q.attempted, q)
    ensures p == q
  {
    SameElements(a, b);
    forall k ensures k in p.attempted <==> k in q.attempted {
      assert Attempted(a, k) <==> Attempted(b, k);
    }
    KeyOrder();
    AscendingUnique(p.attempted, q.attempted, KeyLess);
    forall c ensures OfClass(a, searchFailed, p.attempted, c) == OfClass(b, searchFailed, p.attempted, c) {
      OfClassPermuted(a, b, searchFailed, p.attempted, c);
    }
    forall i | 0 <= i < |p.good| ensures p.good[i] == q.good[i] {
      StatePermuted(clean, a, b, p.good[i], q.good[i]);
    }
  }

  // ----- from projection to baseline

  lemma {:induction false} GoodAscends(rows: seq<Row>, searchFailed: bool, keys: seq<SourceId>, c: Class)
    requires Ascends(keys, KeyLess)
    ensures Ascends(OfClass(rows, searchFailed, keys, c), KeyLess)
    ensures forall k | k in OfClass(rows, searchFailed, keys, c) :: k in keys && ClassOf(rows, searchFailed, k) == c
    decreases |keys|
  {
    if keys != [] {
      var n := |keys| - 1;
      GoodAscends(rows, searchFailed, keys[..n], c);
      assert keys == keys[..n] + [keys[n]];
      forall k | k in keys[..n] ensures KeyLess(k, keys[n]) {
        var i :| 0 <= i < n && keys[..n][i] == k;
        assert keys[i] == k;
      }
    }
  }

  /** What `project` calls good can be merged, and stems from sources every row of which is conclusive and whole. */
  lemma GoodSources(clean: Cleaner, rows: seq<Row>, searchFailed: bool, p: Projection)
    requires Projects(clean, rows, searchFailed, Some(p))
    ensures SourcesOk(p.good)
    ensures forall s | s in p.good :: Attempted(rows, s.id) && !Spoiled(rows, s.id)
  {
    var ids := OfClass(rows, searchFailed, p.attempted, Good);
    GoodAscends(rows, searchFailed, p.attempted, Good);
    forall i, j | 0 <= i < j < |p.good| ensures StateLess(p.good[i], p.good[j]) {
      assert KeyLess(ids[i], ids[j]);
    }
    forall s | s in p.good ensures Attempted(rows, s.id) && !Spoiled(rows, s.id) {
      var i :| 0 <= i < |p.good| && p.good[i] == s;
      assert ids[i] in ids;
    }
  }

  /** The baseline of a source changes only when `project` called the source good. */
  lemma OnlyGoodChanges(clean: Cleaner, rows: seq<Row>, searchFailed: bool, p: Projection, was: Snapshot,
      next: Snapshot, s: SourceState)
    requires Projects(clean, rows, searchFailed, Some(p)) && Overrides(was.Sources(), p.good, next.Sources())
    requires (s in was.Sources()) != (s in next.Sources())
    ensures Attempted(rows, s.id) && !Spoiled(rows, s.id) && HasSource(p.good, s.id)
  {
    GoodSources(clean, rows, searchFailed, p);
    assert s in p.good ==> HasSource(p.good, s.id);
    var t :| t in p.good && t.id == s.id;
  }
}
