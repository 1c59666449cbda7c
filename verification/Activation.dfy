/**
 The A/B activation record: two 4096-byte slots, written alternately and in place, of which the
 readable one with the highest sequence selects the active generation.
 */
module Activation {
  import opened Common
  import opened Bytes
  import CorpusFormat

  const SLOT_SIZE: nat := 4096
  const SECTOR: nat := 512
  const BODY_SIZE: nat := 4064
  const FIELDS_SIZE: nat := 72

  /** "ASPWNACT" */
  const SLOT_MAGIC: seq<byte> := [0x41, 0x53, 0x50, 0x57, 0x4e, 0x41, 0x43, 0x54]

  type DatasetId = CorpusFormat.DatasetId

  datatype Record = Record(sequence: u64, id: DatasetId, manifest: Digest)

  datatype Problem = UnsupportedActivation | ActivationConflict | SequenceExhausted

  // ----- one slot

  function Fields(a: Record): (s: seq<byte>)
    ensures |s| == FIELDS_SIZE
  {
    SLOT_MAGIC + ToBe(CorpusFormat.FORMAT_VERSION, 4) + Zeros(4) + ToBe(a.sequence, 8) + a.id + a.manifest
  }

  function Body(a: Record): (s: seq<byte>)
    ensures |s| == BODY_SIZE
  {
    Fields(a) + Zeros(BODY_SIZE - FIELDS_SIZE)
  }

  function SlotImage(h: Hash, a: Record): (s: seq<byte>)
    ensures |s| == SLOT_SIZE
  {
    Body(a) + h(Body(a))
  }

  /** A buffer of `n` bytes filled with `s` from the start. */
  function Filled(s: seq<byte>, n: nat): seq<byte>
    requires |s| <= n
  {
    s + Zeros(n - |s|)
  }

  /** One field copied behind the fields already filled in. */
  method Append(b: array<byte>, ghost filled: seq<byte>, at: nat, field: seq<byte>)
    requires |filled| == at && at + |field| <= b.Length && b[..] == Filled(filled, b.Length)
    modifies b
    ensures b[..] == Filled(filled + field, b.Length)
  {
    CopyInto(b, at, field);
  }

  method FillFields(b: array<byte>, a: Record)
    requires b.Length == SLOT_SIZE && b[..] == Zeros(SLOT_SIZE)
    modifies b
    ensures b[..] == Filled(Fields(a), SLOT_SIZE)
  {
    ghost var head := SLOT_MAGIC + ToBe(CorpusFormat.FORMAT_VERSION, 4);
    assert b[..] == Filled([], SLOT_SIZE);
    Append(b, [], 0, SLOT_MAGIC);
    assert [] + SLOT_MAGIC == SLOT_MAGIC;
    Append(b, SLOT_MAGIC, 8, ToBe(CorpusFormat.FORMAT_VERSION, 4));
    assert Filled(head, SLOT_SIZE) == Filled(head + Zeros(4), SLOT_SIZE);
    FillRest(b, head + Zeros(4), a);
  }

  method FillRest(b: array<byte>, ghost head: seq<byte>, a: Record)
    requires b.Length == SLOT_SIZE && |head| == 16 && b[..] == Filled(head, SLOT_SIZE)
    modifies b
    ensures b[..] == Filled(head + ToBe(a.sequence, 8) + a.id + a.manifest, SLOT_SIZE)
  {
    ghost var numbered := head + ToBe(a.sequence, 8);
    Append(b, head, 16, ToBe(a.sequence, 8));
    Append(b, numbered, 24, a.id);
    Append(b, numbered + a.id, 40, a.manifest);
  }

  /** `encodeSlot`: the buffer is filled field by field and sealed with the digest of its body. */
  method EncodeSlot(h: Hash, a: Record) returns (b: array<byte>)
    ensures fresh(b) && b[..] == SlotImage(h, a)
  {
    b := new byte[SLOT_SIZE](_ => 0);
    assert b[..] == Zeros(SLOT_SIZE);
    FillFields(b, a);
    assert b[..BODY_SIZE] == Body(a);
    CopyInto(b, BODY_SIZE, h(b[..BODY_SIZE]));
  }

  datatype Decoded = Unreadable | Unsupported | Valid(record: Record)

  function DecodeFields(b: seq<byte>): Record
    requires |b| == SLOT_SIZE
  {
    Be64(0, b[16..24]);
    Record(FromBe(b[16..24]), b[24..40], b[40..72])
  }

  function DecodeSlot(h: Hash, b: seq<byte>): Decoded {
    if |b| != SLOT_SIZE then Unreadable
    else if h(b[..BODY_SIZE]) != b[BODY_SIZE..] || b[..8] != SLOT_MAGIC then Unreadable
    else if FromBe(b[8..12]) != CorpusFormat.FORMAT_VERSION then Unsupported
    else
      var a := DecodeFields(b);
      if a.sequence == 0 || b != SlotImage(h, a) then Unreadable else Valid(a)
  }

  lemma FieldsOfBody(a: Record)
    ensures Body(a)[..8] == SLOT_MAGIC && Body(a)[8..12] == ToBe(CorpusFormat.FORMAT_VERSION, 4)
    ensures Body(a)[16..24] == ToBe(a.sequence, 8) && Body(a)[24..40] == a.id && Body(a)[40..72] == a.manifest
    ensures FromBe(Body(a)[16..24]) == a.sequence
  {
    Be64(a.sequence, ToBe(a.sequence, 8));
  }

  lemma ImageDecodes(h: Hash, a: Record)
    requires a.sequence > 0
    ensures DecodeSlot(h, SlotImage(h, a)) == Valid(a)
  {
    var b := SlotImage(h, a);
    assert b[..BODY_SIZE] == Body(a) && b[BODY_SIZE..] == h(Body(a));
    FieldsOfBody(a);
    assert forall i, j | 0 <= i <= j <= BODY_SIZE :: b[i..j] == Body(a)[i..j];
    assert FromBe(ToBe(1, 4)) == 1 by { assert Pow256(4) == 0x1_0000_0000; FromToBe(1, 4); }
    assert DecodeFields(b) == a;
  }

  /** The decoder accepts exactly the encoder's images of records with a positive sequence. */
  lemma DecodeExact(h: Hash, b: seq<byte>, a: Record)
    ensures DecodeSlot(h, b) == Valid(a) <==> a.sequence > 0 && b == SlotImage(h, a)
  {
    if a.sequence > 0 { ImageDecodes(h, a); }
  }

  // ----- torn writes

  /** A slot file as a write finds it: what is missing of it reads as zeros. */
  function Padded(file: seq<byte>): (b: seq<byte>)
    ensures |file| <= SLOT_SIZE ==> |b| == SLOT_SIZE
  {
    if |file| <= SLOT_SIZE then file + Zeros(SLOT_SIZE - |file|) else file
  }

  /**
   A slot written in part.  The first and the last 512-byte sector are each entirely old or entirely new;
   between them every byte is old or new.
   */
  ghost predicate Mixture(old_: seq<byte>, image: seq<byte>, whole: seq<byte>) {
    && |old_| == |image| == |whole| == SLOT_SIZE
    && (whole[..SECTOR] == old_[..SECTOR] || whole[..SECTOR] == image[..SECTOR])
    && (whole[SLOT_SIZE - SECTOR..] == old_[SLOT_SIZE - SECTOR..] ||
        whole[SLOT_SIZE - SECTOR..] == image[SLOT_SIZE - SECTOR..])
    && forall i | SECTOR <= i < SLOT_SIZE - SECTOR :: whole[i] == old_[i] || whole[i] == image[i]
  }

  /**
   What a write of `image` over `file` can leave when the process dies in it: any beginning of a mixture of the
   two.  The file as it was and the whole image are among them.
   */
  ghost predicate Torn(file: seq<byte>, image: seq<byte>, left: seq<byte>) {
    exists whole :: Mixture(Padded(file), image, whole) && left <= whole
  }

  /** Everything between the fields and the checksum is zero. */
  ghost predicate QuietMiddle(b: seq<byte>) {
    |b| == SLOT_SIZE && forall i | FIELDS_SIZE <= i < BODY_SIZE :: b[i] == 0
  }

  lemma ImageShape(h: Hash, a: Record)
    ensures QuietMiddle(SlotImage(h, a))
    ensures SlotImage(h, a)[..BODY_SIZE] == Body(a) && SlotImage(h, a)[BODY_SIZE..] == h(Body(a))
    ensures SlotImage(h, a)[..FIELDS_SIZE] == Fields(a)
  {
  }

  lemma PrefixEqual(a: seq<byte>, b: seq<byte>, k: nat, n: nat)
    requires k <= n <= |a| == |b| && a[..k] == b[..k] && a[k..n] == b[k..n]
    ensures a[..n] == b[..n]
  {
    assert a[..n] == a[..k] + a[k..n] && b[..n] == b[..k] + b[k..n];
  }

  lemma SuffixEqual(a: seq<byte>, b: seq<byte>, k: nat, n: nat)
    requires k <= n <= |a| == |b| && a[k..] == b[k..]
    ensures a[n..] == b[n..]
  {
    assert a[n..] == a[k..][n - k..] && b[n..] == b[k..][n - k..];
  }

  lemma MixtureMiddle(old_: seq<byte>, image: seq<byte>, whole: seq<byte>)
    requires QuietMiddle(old_) && QuietMiddle(image) && Mixture(old_, image, whole)
    ensures QuietMiddle(whole)
  {
    var t := SLOT_SIZE - SECTOR;
    forall i | FIELDS_SIZE <= i < BODY_SIZE ensures whole[i] == 0 {
      if i < SECTOR {
        assert whole[i] == whole[..SECTOR][i];
        assert old_[i] == old_[..SECTOR][i] && image[i] == image[..SECTOR][i];
      } else if i >= t {
        assert whole[i] == whole[t..][i - t] && old_[i] == old_[t..][i - t] && image[i] == image[t..][i - t];
      }
    }
  }

  /** A mixture is made of one whole body and one whole checksum, each old or new. */
  lemma TornParts(old_: seq<byte>, image: seq<byte>, whole: seq<byte>)
    requires QuietMiddle(old_) && QuietMiddle(image) && Mixture(old_, image, whole)
    ensures QuietMiddle(whole)
    ensures whole[..BODY_SIZE] == old_[..BODY_SIZE] || whole[..BODY_SIZE] == image[..BODY_SIZE]
    ensures whole[BODY_SIZE..] == old_[BODY_SIZE..] || whole[BODY_SIZE..] == image[BODY_SIZE..]
  {
    MixtureMiddle(old_, image, whole);
    var head := if whole[..SECTOR] == old_[..SECTOR] then old_ else image;
    assert whole[SECTOR..BODY_SIZE] == head[SECTOR..BODY_SIZE];
    PrefixEqual(whole, head, SECTOR, BODY_SIZE);
    var tail := if whole[SLOT_SIZE - SECTOR..] == old_[SLOT_SIZE - SECTOR..] then old_ else image;
    SuffixEqual(whole, tail, SLOT_SIZE - SECTOR, BODY_SIZE);
  }

  /** The old body under the new checksum. */
  function Spliced(h: Hash, file: seq<byte>, n: Record): (b: seq<byte>)
    requires |file| <= SLOT_SIZE
    ensures |b| == SLOT_SIZE
  {
    Padded(file)[..BODY_SIZE] + h(Body(n))
  }

  /** Reading `b` gives the record being written, what the file gave before, or nothing. */
  predicate Harmless(h: Hash, file: seq<byte>, n: Record, b: seq<byte>) {
    DecodeSlot(h, b).Unreadable? || DecodeSlot(h, b) == Valid(n) || DecodeSlot(h, b) == DecodeSlot(h, file)
  }

  /** A slot file between two publications: no longer than a slot, quiet, and not of another format. */
  ghost predicate FileOk(h: Hash, file: seq<byte>) {
    |file| <= SLOT_SIZE && QuietMiddle(Padded(file)) && !DecodeSlot(h, file).Unsupported?
  }

  lemma OldIsTorn(file: seq<byte>, image: seq<byte>)
    requires |file| <= SLOT_SIZE == |image|
    ensures Torn(file, image, Padded(file)) && Torn(file, image, file)
  {
    assert Mixture(Padded(file), image, Padded(file));
    assert file <= Padded(file);
  }

  lemma SplicedIsTorn(h: Hash, file: seq<byte>, n: Record)
    requires |file| <= SLOT_SIZE && QuietMiddle(Padded(file))
    ensures Torn(file, SlotImage(h, n), Spliced(h, file, n))
  {
    ImageShape(h, n);
    var old_, image, whole := Padded(file), SlotImage(h, n), Spliced(h, file, n);
    assert whole[..SECTOR] == old_[..SECTOR];
    forall i | SLOT_SIZE - SECTOR <= i < SLOT_SIZE ensures whole[i] == image[i] {
      if i < BODY_SIZE { assert whole[i] == old_[i] == 0 == image[i]; }
    }
    assert whole[SLOT_SIZE - SECTOR..] == image[SLOT_SIZE - SECTOR..];
    assert Mixture(old_, image, whole);
  }

  /** A body with a checksum that is not its own reads as nothing. */
  lemma ImageBodyHarmless(h: Hash, file: seq<byte>, n: Record, whole: seq<byte>)
    requires |whole| == SLOT_SIZE && whole[..BODY_SIZE] == Body(n) && n.sequence > 0
    ensures Harmless(h, file, n, whole)
  {
    if h(Body(n)) == whole[BODY_SIZE..] {
      assert whole == SlotImage(h, n) by { assert whole == whole[..BODY_SIZE] + whole[BODY_SIZE..]; }
      DecodeExact(h, whole, n);
    }
  }

  /** Two mixtures decide: if neither reads as something else, no torn write does. */
  lemma TwoDecide(h: Hash, file: seq<byte>, n: Record, left: seq<byte>)
    requires FileOk(h, file) && Torn(file, SlotImage(h, n), left) && n.sequence > 0
    requires Harmless(h, file, n, Padded(file)) && Harmless(h, file, n, Spliced(h, file, n))
    ensures Harmless(h, file, n, left)
  {
    var image := SlotImage(h, n);
    var whole :| Mixture(Padded(file), image, whole) && left <= whole;
    if |left| == SLOT_SIZE {
      assert left == whole;
      ImageShape(h, n);
      TornParts(Padded(file), image, whole);
      if whole[..BODY_SIZE] == Body(n) {
        ImageBodyHarmless(h, file, n, whole);
      } else {
        assert whole == whole[..BODY_SIZE] + whole[BODY_SIZE..];
        assert Padded(file) == Padded(file)[..BODY_SIZE] + Padded(file)[BODY_SIZE..];
        assert whole == Padded(file) || whole == Spliced(h, file, n);
      }
    }
  }

  /**
   Exactly when a write that dies anywhere can only leave the old record, the new one or nothing: when the two
   mixtures a caller can compute beforehand, all old and old under the new checksum, are harmless.
   */
  lemma TornExact(h: Hash, file: seq<byte>, n: Record)
    requires FileOk(h, file) && n.sequence > 0
    ensures (forall left | Torn(file, SlotImage(h, n), left) :: Harmless(h, file, n, left)) <==>
            Harmless(h, file, n, Padded(file)) && Harmless(h, file, n, Spliced(h, file, n))
  {
    OldIsTorn(file, SlotImage(h, n));
    SplicedIsTorn(h, file, n);
    if Harmless(h, file, n, Padded(file)) && Harmless(h, file, n, Spliced(h, file, n)) {
      forall left | Torn(file, SlotImage(h, n), left) ensures Harmless(h, file, n, left) {
        TwoDecide(h, file, n, left);
      }
    }
  }

  predicate Sealed(h: Hash, b: seq<byte>) { |b| == SLOT_SIZE && h(b[..BODY_SIZE]) == b[BODY_SIZE..] }

  /**
   Before writing `n` over `file`: the body there and the new one do not collide, and a file cut short is not a
   slot that only lacks zeros at the end of its checksum.
   */
  predicate Clear(h: Hash, file: seq<byte>, n: Record)
    requires |file| <= SLOT_SIZE
  {
    && !Collision(h, Padded(file)[..BODY_SIZE], Body(n))
    && (0 < |file| < SLOT_SIZE ==> !Sealed(h, Padded(file)))
  }

  lemma PaddedHarmless(h: Hash, file: seq<byte>, n: Record)
    requires FileOk(h, file) && Clear(h, file, n)
    ensures Harmless(h, file, n, Padded(file))
  {
    if |file| == SLOT_SIZE {
      assert Padded(file) == file;
    } else if file == [] {
      assert Padded(file)[..8][0] == 0 && SLOT_MAGIC[0] == 0x41;
    }
  }

  lemma SplicedHarmless(h: Hash, file: seq<byte>, n: Record)
    requires FileOk(h, file) && Clear(h, file, n) && n.sequence > 0
    ensures Harmless(h, file, n, Spliced(h, file, n))
  {
    var b := Spliced(h, file, n);
    assert b[..BODY_SIZE] == Padded(file)[..BODY_SIZE] && b[BODY_SIZE..] == h(Body(n));
    if b[..BODY_SIZE] == Body(n) { ImageBodyHarmless(h, file, n, b); }
  }

  /** A torn slot reads as the record being written, as what the file already read as, or not at all. */
  lemma TornReads(h: Hash, file: seq<byte>, n: Record, left: seq<byte>)
    requires FileOk(h, file) && Torn(file, SlotImage(h, n), left) && n.sequence > 0 && Clear(h, file, n)
    ensures Harmless(h, file, n, left) && FileOk(h, left)
  {
    PaddedHarmless(h, file, n);
    SplicedHarmless(h, file, n);
    TwoDecide(h, file, n, left);
    TornQuiet(h, file, n, left);
  }

  lemma TornQuiet(h: Hash, file: seq<byte>, n: Record, left: seq<byte>)
    requires FileOk(h, file) && Torn(file, SlotImage(h, n), left)
    ensures |left| <= SLOT_SIZE && QuietMiddle(Padded(left))
  {
    var whole :| Mixture(Padded(file), SlotImage(h, n), whole) && left <= whole;
    ImageShape(h, n);
    MixtureMiddle(Padded(file), SlotImage(h, n), whole);
  }

  /**
   Why a file cut short has to be looked at: when the checksum of an aborted record ends in a zero byte and only
   that byte is missing, a later write that dies after extending the file brings the aborted record back.
   */
  lemma ShortSlotRevives(h: Hash, aborted: Record, n: Record)
    requires aborted.sequence > 0 && h(Body(aborted))[31] == 0 && n != aborted
    ensures var file := SlotImage(h, aborted)[..SLOT_SIZE - 1];
            && FileOk(h, file) && DecodeSlot(h, file).Unreadable?
            && Torn(file, SlotImage(h, n), SlotImage(h, aborted))
            && DecodeSlot(h, SlotImage(h, aborted)) == Valid(aborted)
            && !Clear(h, file, n)
  {
    var image := SlotImage(h, aborted);
    var file := image[..SLOT_SIZE - 1];
    ImageShape(h, aborted);
    assert image[SLOT_SIZE - 1] == image[BODY_SIZE..][31];
    assert Padded(file) == image;
    ImageDecodes(h, aborted);
    OldIsTorn(file, SlotImage(h, n));
  }

  // ----- both slots

  /** `best` is the index of the selected slot, or -1. */
  datatype Selection = Selection(slots: seq<Option<Record>>, best: int, recovered: bool)

  function SlotOf(h: Hash, file: seq<byte>): Option<Record> {
    match DecodeSlot(h, file)
    case Valid(a) => Some(a)
    case _ => None
  }

  /** Slot `i` holds the highest readable sequence, the first of two equals. */
  predicate IsBest(slots: seq<Option<Record>>, i: int) {
    && 0 <= i < |slots| && slots[i].Some?
    && (forall j | 0 <= j < |slots| && slots[j].Some? :: slots[j].value.sequence <= slots[i].value.sequence)
    && (forall j | 0 <= j < i && slots[j].Some? :: slots[j].value.sequence < slots[i].value.sequence)
  }

  ghost predicate Selects(h: Hash, files: seq<seq<byte>>, sel: Selection)
    requires |files| == 2
  {
    && sel.slots == [SlotOf(h, files[0]), SlotOf(h, files[1])]
    && (if sel.best < 0 then sel.best == -1 && sel.slots == [None, None] else IsBest(sel.slots, sel.best))
    && (sel.recovered <==> exists i | 0 <= i < 2 :: files[i] != [] && SlotOf(h, files[i]).None?)
  }

  predicate Conflict(slots: seq<Option<Record>>)
    requires |slots| == 2
  {
    slots[0].Some? && slots[1].Some? && slots[0].value.sequence == slots[1].value.sequence && slots[0] != slots[1]
  }

  /** `readSelection` over the two files' contents; a missing file and an empty one read alike. */
  method ReadSelection(h: Hash, files: seq<seq<byte>>) returns (r: Result<Selection, Problem>)
    requires |files| == 2
    ensures r.Success? ==> Selects(h, files, r.value)
    ensures r == Failure(UnsupportedActivation) <==>
              DecodeSlot(h, files[0]).Unsupported? || DecodeSlot(h, files[1]).Unsupported?
    ensures r == Failure(ActivationConflict) <==>
            !DecodeSlot(h, files[0]).Unsupported? && !DecodeSlot(h, files[1]).Unsupported? &&
            Conflict([SlotOf(h, files[0]), SlotOf(h, files[1])])
    ensures r.Failure? ==> r.error.UnsupportedActivation? || r.error.ActivationConflict?
  {
    hide DecodeSlot;
    var slots: seq<Option<Record>> := [None, None];
    var best, recovered := -1, false;
    var i := 0;
    while i < 2
      invariant 0 <= i <= 2 && |slots| == 2
      invariant forall j | 0 <= j < i :: slots[j] == SlotOf(h, files[j]) && !DecodeSlot(h, files[j]).Unsupported?
      invariant forall j | i <= j < 2 :: slots[j] == None
      invariant if best < 0 then best == -1 && slots == [None, None] else best < i && IsBest(slots, best)
      invariant recovered <==> exists j | 0 <= j < i :: files[j] != [] && SlotOf(h, files[j]).None?
    {
      match DecodeSlot(h, files[i]) {
        case Unsupported => return Failure(UnsupportedActivation);
        case Unreadable =>
          if |files[i]| > 0 { recovered := true; }
        case Valid(a) =>
          slots := slots[i := Some(a)];
          if best < 0 || a.sequence > slots[best].value.sequence { best := i; }
      }
      i := i + 1;
    }
    if Conflict(slots) {
      return Failure(ActivationConflict);
    }
    r := Success(Selection(slots, best, recovered));
  }

  function SlotsOf(h: Hash, files: seq<seq<byte>>): seq<Option<Record>>
    requires |files| == 2
  {
    [SlotOf(h, files[0]), SlotOf(h, files[1])]
  }

  function SequenceOf(slot: Option<Record>): Option<nat> {
    match slot
    case Some(a) => Some(a.sequence)
    case None => None
  }

  function BestOf(slots: seq<Option<Record>>): int
    requires |slots| == 2
  {
    Higher(SequenceOf(slots[0]), SequenceOf(slots[1]))
  }

  function BestRecord(slots: seq<Option<Record>>): Option<Record>
    requires |slots| == 2
  {
    if BestOf(slots) < 0 then None else slots[BestOf(slots)]
  }

  function Selected(h: Hash, files: seq<seq<byte>>): Option<Record>
    requires |files| == 2
  {
    BestRecord(SlotsOf(h, files))
  }

  lemma SelectsUnique(h: Hash, files: seq<seq<byte>>, sel: Selection)
    requires |files| == 2 && Selects(h, files, sel)
    ensures sel.slots == SlotsOf(h, files) && sel.best == BestOf(sel.slots)
  {
  }

  // ----- publishing

  /** The slot `Activate` writes and the sequence it writes there. */
  function TargetSlot(slots: seq<Option<Record>>): nat
    requires |slots| == 2
  {
    if BestOf(slots) < 0 then 0 else 1 - BestOf(slots)
  }

  function NextSequence(slots: seq<Option<Record>>): nat
    requires |slots| == 2
  {
    if BestOf(slots) < 0 then 1 else slots[BestOf(slots)].value.sequence + 1
  }

  /** The record a publication over these files writes. */
  function Next(h: Hash, files: seq<seq<byte>>, id: DatasetId, manifest: Digest): Record
    requires |files| == 2 && NextSequence(SlotsOf(h, files)) < TWO_64
  {
    Record(NextSequence(SlotsOf(h, files)), id, manifest)
  }

  function Target(h: Hash, files: seq<seq<byte>>): seq<byte>
    requires |files| == 2
  {
    files[TargetSlot(SlotsOf(h, files))]
  }

  /**
   One publication that may die anywhere; `left` is what is then in the slot it writes.  It reads as the record
   being published, as what the slot read before, or as nothing.
   */
  ghost predicate Attempt(h: Hash, files: seq<seq<byte>>, id: DatasetId, manifest: Digest, left: seq<byte>,
      files': seq<seq<byte>>)
    requires |files| == 2
  {
    if NextSequence(SlotsOf(h, files)) >= TWO_64 then files' == files
    else
      && files' == files[TargetSlot(SlotsOf(h, files)) := left]
      && Harmless(h, Target(h, files), Next(h, files, id, manifest), left)
  }

  /** One publication that leaves a torn slot, over a slot that the record being written is clear of. */
  ghost predicate TornAttempt(h: Hash, files: seq<seq<byte>>, id: DatasetId, manifest: Digest, left: seq<byte>,
      files': seq<seq<byte>>)
    requires |files| == 2
  {
    if NextSequence(SlotsOf(h, files)) >= TWO_64 then files' == files
    else
      && files' == files[TargetSlot(SlotsOf(h, files)) := left] && |Target(h, files)| <= SLOT_SIZE
      && Torn(Target(h, files), SlotImage(h, Next(h, files, id, manifest)), left)
      && Clear(h, Target(h, files), Next(h, files, id, manifest))
  }

  /** Both files once record `n` has been written completely. */
  function Published(h: Hash, files: seq<seq<byte>>, n: Record): seq<seq<byte>>
    requires |files| == 2
  {
    files[TargetSlot(SlotsOf(h, files)) := SlotImage(h, n)]
  }

  /** Where and under which sequence to publish, computed in 64-bit numbers. */
  method PlanWrite(slots: seq<Option<Record>>, best: int) returns (next: Option<u64>, slot: nat)
    requires |slots| == 2 && best == BestOf(slots)
    ensures slot == TargetSlot(slots)
    ensures next == (if NextSequence(slots) < TWO_64 then Some(NextSequence(slots)) else None)
  {
    var sequence: u64 := 1;
    slot := 0;
    if best >= 0 {
      sequence := (slots[best].value.sequence + 1) % TWO_64;
      slot := 1 - best;
    }
    next := if sequence == 0 then None else Some(sequence);
  }

  /** Publication goes ahead: both slots are readable formats, do not conflict, and a sequence is left. */
  predicate CanPublish(h: Hash, files: seq<seq<byte>>)
    requires |files| == 2
  {
    && !DecodeSlot(h, files[0]).Unsupported? && !DecodeSlot(h, files[1]).Unsupported?
    && !Conflict(SlotsOf(h, files)) && NextSequence(SlotsOf(h, files)) < TWO_64
  }

  /** The publishing half of `Activate`, under the control gate, when nothing interrupts it. */
  method Publish(h: Hash, files: seq<seq<byte>>, id: DatasetId, manifest: Digest)
    returns (r: Result<seq<seq<byte>>, Problem>)
    requires |files| == 2
    ensures r.Success? <==> CanPublish(h, files)
    ensures r.Success? ==> r.value == Published(h, files, Next(h, files, id, manifest))
    ensures r == Failure(SequenceExhausted) ==> NextSequence(SlotsOf(h, files)) == TWO_64
    ensures r == Failure(UnsupportedActivation) <==>
              DecodeSlot(h, files[0]).Unsupported? || DecodeSlot(h, files[1]).Unsupported?
  {
    var read := ReadSelection(h, files);
    if read.Failure? {
      return Failure(read.error);
    }
    var sel := read.value;
    SelectsUnique(h, files, sel);
    var next, slot := PlanWrite(sel.slots, sel.best);
    if next.None? {
      return Failure(SequenceExhausted);
    }
    var image := EncodeSlot(h, Record(next.value, id, manifest));
    r := Success(files[slot := image[..]]);
  }

  // ----- crash safety over every run of Activates

  ghost predicate FilesOk(h: Hash, files: seq<seq<byte>>) {
    && |files| == 2 && !DecodeSlot(h, files[0]).Unsupported? && !DecodeSlot(h, files[1]).Unsupported?
    && OneApart(SlotsOf(h, files))
  }

  /** Two readable slots differ by exactly one in sequence. */
  predicate OneApart(slots: seq<Option<Record>>)
    requires |slots| == 2
  {
    slots[0].Some? && slots[1].Some? ==>
      slots[0].value.sequence == slots[1].value.sequence + 1 || slots[1].value.sequence == slots[0].value.sequence + 1
  }

  /** Overwriting the target slot with anything but a stray record keeps the slots one apart. */
  lemma SlotsKeep(slots: seq<Option<Record>>, n: Record, x: Option<Record>)
    requires |slots| == 2 && OneApart(slots) && n.sequence == NextSequence(slots)
    requires x == None || x == Some(n) || x == slots[TargetSlot(slots)]
    ensures OneApart(slots[TargetSlot(slots) := x])
    ensures BestRecord(slots[TargetSlot(slots) := x]) == (if x == Some(n) then Some(n) else BestRecord(slots))
  {
  }

  lemma EmptyOk(h: Hash)
    ensures FilesOk(h, [[], []]) && SlotsOf(h, [[], []]) == [None, None]
  {
  }

  /**
   One Activate, cut anywhere: two readable slots still differ by exactly one in sequence, and the
   selection is the previous one or the record being published; a completed write selects the latter.
   */
  lemma AttemptKeeps(h: Hash, files: seq<seq<byte>>, id: DatasetId, manifest: Digest, left: seq<byte>,
      files': seq<seq<byte>>)
    requires FilesOk(h, files) && Attempt(h, files, id, manifest, left, files')
    ensures FilesOk(h, files')
    ensures Selected(h, files') == Selected(h, files) ||
            (NextSequence(SlotsOf(h, files)) < TWO_64 && Selected(h, files') == Some(Next(h, files, id, manifest)))
    ensures NextSequence(SlotsOf(h, files)) < TWO_64 && left == SlotImage(h, Next(h, files, id, manifest)) ==>
              Selected(h, files') == Some(Next(h, files, id, manifest))
  {
    var slots := SlotsOf(h, files);
    if NextSequence(slots) < TWO_64 {
      var n := Next(h, files, id, manifest);
      DecodeExact(h, left, n);
      hide DecodeSlot, SlotImage;
      assert SlotsOf(h, files') == slots[TargetSlot(slots) := SlotOf(h, left)];
      SlotsKeep(slots, n, SlotOf(h, left));
    }
  }

  /** A published generation and what its writing process left behind. */
  datatype Publication = Publication(id: DatasetId, manifest: Digest, left: seq<byte>)

  ghost predicate Run(h: Hash, trace: seq<seq<seq<byte>>>, steps: seq<Publication>) {
    && |trace| == |steps| + 1 && trace[0] == [[], []]
    && (forall i | 0 <= i < |trace| :: |trace[i]| == 2)
    && (forall i | 0 <= i < |steps| ::
        Attempt(h, trace[i], steps[i].id, steps[i].manifest, steps[i].left, trace[i + 1]))
  }

  lemma {:induction false} RunOk(h: Hash, trace: seq<seq<seq<byte>>>, steps: seq<Publication>, i: nat)
    requires Run(h, trace, steps) && i < |trace|
    ensures FilesOk(h, trace[i])
  {
    hide DecodeSlot, Attempt;
    if i == 0 {
      EmptyOk(h);
    } else {
      RunOk(h, trace, steps, i - 1);
      AttemptKeeps(h, trace[i - 1], steps[i - 1].id, steps[i - 1].manifest, steps[i - 1].left, trace[i]);
    }
  }

  /** From an empty root, whatever was cut off, reading the selection never fails. */
  lemma SelectionNeverFails(h: Hash, trace: seq<seq<seq<byte>>>, steps: seq<Publication>, i: nat)
    requires Run(h, trace, steps) && i < |trace|
    ensures !DecodeSlot(h, trace[i][0]).Unsupported? && !DecodeSlot(h, trace[i][1]).Unsupported?
    ensures !Conflict(SlotsOf(h, trace[i]))
  {
    RunOk(h, trace, steps, i);
  }

  /** The selection only ever moves to the generation being published, and never disappears. */
  lemma SelectionMoves(h: Hash, trace: seq<seq<seq<byte>>>, steps: seq<Publication>, i: nat)
    requires Run(h, trace, steps) && i < |steps|
    ensures var before, after := Selected(h, trace[i]), Selected(h, trace[i + 1]);
            after == before ||
            (after.Some? && after.value.id == steps[i].id && after.value.manifest == steps[i].manifest &&
             (before.Some? ==> after.value.sequence == before.value.sequence + 1))
  {
    RunOk(h, trace, steps, i);
    AttemptKeeps(h, trace[i], steps[i].id, steps[i].manifest, steps[i].left, trace[i + 1]);
  }

  /** Whatever is selected was published by one of the publications before, under its id and manifest digest. */
  lemma {:induction false} SelectedWasPublished(
    h: Hash, trace: seq<seq<seq<byte>>>, steps: seq<Publication>, i: nat, a: Record) returns (j: nat)
    requires Run(h, trace, steps) && i < |trace| && Selected(h, trace[i]) == Some(a)
    ensures j < i && steps[j].id == a.id && steps[j].manifest == a.manifest
  {
    hide DecodeSlot, Attempt;
    if i == 0 {
      EmptyOk(h);
    }
    SelectionMoves(h, trace, steps, i - 1);
    if Selected(h, trace[i - 1]) == Some(a) {
      j := SelectedWasPublished(h, trace, steps, i - 1, a);
    } else {
      j := i - 1;
    }
  }

  // ----- torn writes make such runs

  ghost predicate TornRun(h: Hash, trace: seq<seq<seq<byte>>>, steps: seq<Publication>) {
    && |trace| == |steps| + 1 && trace[0] == [[], []]
    && (forall i | 0 <= i < |trace| :: |trace[i]| == 2)
    && (forall i | 0 <= i < |steps| ::
        TornAttempt(h, trace[i], steps[i].id, steps[i].manifest, steps[i].left, trace[i + 1]))
  }

  /** A torn and clear attempt is an attempt, and leaves both slots fit for the next one. */
  lemma TornIsAttempt(h: Hash, files: seq<seq<byte>>, id: DatasetId, manifest: Digest, left: seq<byte>,
      files': seq<seq<byte>>)
    requires |files| == 2 && FileOk(h, files[0]) && FileOk(h, files[1])
    requires TornAttempt(h, files, id, manifest, left, files')
    ensures Attempt(h, files, id, manifest, left, files')
    ensures |files'| == 2 && FileOk(h, files'[0]) && FileOk(h, files'[1])
  {
    if NextSequence(SlotsOf(h, files)) < TWO_64 {
      TornReads(h, Target(h, files), Next(h, files, id, manifest), left);
    }
  }

  /**
   Every run in which each process dies with a torn slot is a run, as long as each record written is clear of what
   is in the slot it is written to.
   */
  lemma TornRunIsRun(h: Hash, trace: seq<seq<seq<byte>>>, steps: seq<Publication>)
    requires TornRun(h, trace, steps)
    ensures Run(h, trace, steps)
  {
    forall i | 0 <= i < |steps|
      ensures Attempt(h, trace[i], steps[i].id, steps[i].manifest, steps[i].left, trace[i + 1])
    {
      TornFilesOk(h, trace, steps, i);
      TornIsAttempt(h, trace[i], steps[i].id, steps[i].manifest, steps[i].left, trace[i + 1]);
    }
  }

  lemma {:induction false} TornFilesOk(h: Hash, trace: seq<seq<seq<byte>>>, steps: seq<Publication>, i: nat)
    requires TornRun(h, trace, steps) && i < |trace|
    ensures FileOk(h, trace[i][0]) && FileOk(h, trace[i][1])
  {
    if i > 0 {
      TornFilesOk(h, trace, steps, i - 1);
      TornIsAttempt(h, trace[i - 1], steps[i - 1].id, steps[i - 1].manifest, steps[i - 1].left, trace[i]);
    }
  }
}
