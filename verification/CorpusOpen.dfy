/**
 From publication to answer: `Activate` verifies a generation before it publishes it, `Open` loads the one that is
 selected, and what a lookup then answers is what was verified.
 */
module CorpusOpen {
  import opened Common
  import opened Bytes
  import opened CorpusFormat
  import opened CorpusReader
  import Activation

  /** The generations' directories at some moment. */
  type Versions = map<DatasetId, Files>

  datatype Refusal = Slots(activation: Activation.Problem) | NotActivated | NoVersion | Version(problem: Problem)

  /** `Activate` when nothing interrupts it: the whole scrub first, then the slot. */
  method Activate(h: Hash, decode: Decoder, versions: Versions, slots: seq<seq<byte>>, id: DatasetId)
    returns (r: Result<seq<seq<byte>>, Refusal>)
    requires |slots| == 2
    ensures r.Success? <==> id in versions && Verified(h, decode, versions[id], id) && Activation.CanPublish(h, slots)
    ensures r.Success? ==>
              r.value == Activation.Published(h, slots, Activation.Next(h, slots, id, h(versions[id].manifest)))
  {
    if id !in versions {
      return Failure(NoVersion);
    }
    var bad := Verify(h, decode, versions[id], id);
    if bad.Some? {
      return Failure(Version(bad.value));
    }
    var published := Activation.Publish(h, slots, id, h(versions[id].manifest));
    match published
    case Success(files) => r := Success(files);
    case Failure(e) => r := Failure(Slots(e));
  }

  /** What has to be in order for `Open`. */
  ghost predicate Opens(h: Hash, decode: Decoder, versions: Versions, slots: seq<seq<byte>>)
    requires |slots| == 2
  {
    && !Activation.DecodeSlot(h, slots[0]).Unsupported? && !Activation.DecodeSlot(h, slots[1]).Unsupported?
    && !Activation.Conflict(Activation.SlotsOf(h, slots))
    && Activation.Selected(h, slots).Some?
    && var a := Activation.Selected(h, slots).value;
       a.id in versions && Loads(h, decode, versions[a.id], a.id, Some(a.manifest))
  }

  /** The selection, the lease, and the metadata checked against the manifest digest in the slot. */
  method Open(h: Hash, decode: Decoder, versions: Versions, slots: seq<seq<byte>>)
    returns (r: Result<Snapshot, Refusal>)
    requires |slots| == 2
    ensures r.Success? <==> Opens(h, decode, versions, slots)
    ensures r.Success? ==> fresh(r.value) && fresh(r.value.lease) && r.value.Valid() && !r.value.closed
    ensures r.Success? ==>
              LoadedAs(h, decode, versions[Activation.Selected(h, slots).value.id], r.value.manifest, r.value.index)
  {
    var read := Activation.ReadSelection(h, slots);
    if read.Failure? {
      return Failure(Slots(read.error));
    }
    var sel := read.value;
    Activation.SelectsUnique(h, slots, sel);
    if sel.best < 0 {
      return Failure(NotActivated);
    }
    var a := sel.slots[sel.best].value;
    if a.id !in versions {
      return Failure(NoVersion);
    }
    var lease := new Lease();
    var bad := LoadVersion(h, decode, versions[a.id], a.id, Some(a.manifest));
    if bad.Some? {
      lease.Release();
      return Failure(Version(bad.value));
    }
    LoadsAs(h, decode, versions[a.id], a.id, Some(a.manifest));
    var s := new Snapshot(LayoutOf(versions[a.id].index), decode(versions[a.id].manifest).value, lease);
    r := Success(s);
  }

  /** The key's range in the verified data file and in the file read later collide. */
  ghost predicate RangesCollide(h: Hash, ix: Layout, count: nat, verified: seq<byte>, data: seq<byte>, key: Key) {
    && Tiles(ix, count) && |verified| == |data| == HEADER_SIZE + RECORD_SIZE * count
    && Collision(h, RangeOf(ix, count, verified, Prefix(key)), RangeOf(ix, count, data, Prefix(key)))
  }

  /** `n` is the key's count in the verified generation, or two byte strings compared on the way collide. */
  ghost predicate Genuine(h: Hash, decode: Decoder, verified: Files, later: Files, data: seq<byte>, key: Key, n: u64)
    requires exists id :: Verified(h, decode, verified, id)
  {
    || IsCount(FileRecords(verified.data), key, n)
    || Collision(h, verified.manifest, later.manifest)
    || Collision(h, verified.index, later.index)
    || RangesCollide(h, LayoutOf(verified.index), decode(verified.manifest).value.recordCount, verified.data, data, key)
  }

  /**
   `Open` and then `Lookup`, over arbitrary contents of all files at each moment.  `verified` is the generation
   whose manifest digest the selected slot records.
   */
  method Answer(h: Hash, decode: Decoder, ghost verified: Files, versions: Versions, slots: seq<seq<byte>>,
                data: seq<byte>, key: Key) returns (r: Result<u64, Refusal>)
    requires |slots| == 2
    requires Activation.Selected(h, slots).Some? ==>
               var a := Activation.Selected(h, slots).value;
               a.manifest == h(verified.manifest) && Verified(h, decode, verified, a.id)
    ensures r.Success? ==> Opens(h, decode, versions, slots)
    ensures r.Success? ==>
              Genuine(h, decode, verified, versions[Activation.Selected(h, slots).value.id], data, key, r.value)
    ensures Opens(h, decode, versions, slots) ==>
              var later := versions[Activation.Selected(h, slots).value.id];
              (later == verified && data == verified.data ==> r.Success?)
  {
    var opened_ := Open(h, decode, versions, slots);
    if opened_.Failure? {
      return Failure(opened_.error);
    }
    var s := opened_.value;
    var count := s.Lookup(h, data, key);
    Answered(h, decode, verified, versions, slots, s.manifest, s.index, data, key, count);
    s.Close();
    match count
    case Success(n) => r := Success(n);
    case Failure(e) => r := Failure(Version(e));
  }

  lemma Answered(h: Hash, decode: Decoder, verified: Files, versions: Versions, slots: seq<seq<byte>>,
                 m: Manifest, ix: Layout, data: seq<byte>, key: Key, r: Result<u64, Problem>)
    requires |slots| == 2 && Opens(h, decode, versions, slots)
    requires var a := Activation.Selected(h, slots).value;
             && a.manifest == h(verified.manifest) && Verified(h, decode, verified, a.id)
             && LoadedAs(h, decode, versions[a.id], m, ix)
    requires |data| != m.dataSize ==> r == Failure(TruncatedData)
    requires |data| == m.dataSize ==>
              Looked(h, ix.digests[Prefix(key)], RangeOf(ix, m.recordCount, data, Prefix(key)), key, r)
    ensures var later := versions[Activation.Selected(h, slots).value.id];
            && (r.Success? ==> Genuine(h, decode, verified, later, data, key, r.value))
            && (later == verified && data == verified.data ==> r.Success?)
  {
    var a := Activation.Selected(h, slots).value;
    var later := versions[a.id];
    LoadsAs(h, decode, verified, a.id, None);
    var m0, ix0 := decode(verified.manifest).value, LayoutOf(verified.index);
    if |data| == m.dataSize {
      FailClosed(h, decode, verified, m0, ix0, later, m, ix, data, key, r);
    }
    if later == verified && data == verified.data {
      assert m == m0 && ix == ix0;
      LookupFailsClosed(h, ix0, m0, verified.data, data, key, r);
    }
  }

  /**
   The whole chain.  After any run of publications, each of a generation verified when it was published and each
   cut anywhere, an answer is genuine for one of the generations published so far.
   */
  method AnswerAfter(h: Hash, decode: Decoder, ghost trace: seq<seq<seq<byte>>>,
                     ghost steps: seq<Activation.Publication>, ghost sources: seq<Files>, ghost i: nat,
                     versions: Versions, slots: seq<seq<byte>>, data: seq<byte>, key: Key)
    returns (r: Result<u64, Refusal>)
    requires Activation.Run(h, trace, steps) && i < |trace| && slots == trace[i] && |sources| == |steps|
    requires forall j | 0 <= j < |steps| ::
               steps[j].manifest == h(sources[j].manifest) && Verified(h, decode, sources[j], steps[j].id)
    ensures r.Success? ==> Opens(h, decode, versions, slots)
    ensures r.Success? ==>
              var later := versions[Activation.Selected(h, slots).value.id];
              exists j | 0 <= j < i && Verified(h, decode, sources[j], steps[j].id) ::
                Genuine(h, decode, sources[j], later, data, key, r.value)
  {
    ghost var verified := Files([], [], []);
    ghost var j := 0;
    if Activation.Selected(h, slots).Some? {
      j := Activation.SelectedWasPublished(h, trace, steps, i, Activation.Selected(h, slots).value);
      verified := sources[j];
    }
    r := Answer(h, decode, verified, versions, slots, data, key);
  }
}
