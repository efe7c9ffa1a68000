/** LBR images: what the kernel module reads from and writes to the LBR registers, and the order
    in which the digest reads an image.
 */
module Lbr {
  import opened ControlFlow

  const TWO_64: int := 0x1_0000_0000_0000_0000

  type U64 = x: int | 0 <= x < TWO_64

  datatype Entry = Entry(from: nat, to: nat)

  const EMPTY := Entry(0, 0)

  datatype RawImage = Image(debug: U64, select: U64, tos: U64, from: seq<U64>, to: seq<U64>)

  /** The LBR registers, or a copy of them. */
  type Image = l: RawImage | l.tos < LBR_SIZE == |l.from| == |l.to| witness NO_IMAGE

  const ZEROS: seq<U64> := [0, 0, 0, 0, 0, 0, 0, 0, 0, 0, 0, 0, 0, 0, 0, 0]

  const NO_IMAGE: RawImage := Image(0, 0, 0, ZEROS, ZEROS)

  // ----- LBR_FROM

  function Signed(x: U64): int {
    if x < TWO_64 / 2 then x else x - TWO_64
  }

  /** `LBR_FROM`: shift left by three bits as a signed value, and arithmetically back. */
  function LbrFrom(x: U64): U64 {
    (Signed((x * 8) % TWO_64) / 8) % TWO_64
  }

  const TWO_61: int := 0x2000_0000_0000_0000

  /** The three flag bits become copies of bit 60; the address below them stays. */
  lemma {:induction false} LbrFromMeaning(x: U64)
    ensures LbrFrom(x) == if x % TWO_61 < TWO_61 / 2 then x % TWO_61 else x % TWO_61 + 7 * TWO_61
    ensures LbrFrom(LbrFrom(x)) == LbrFrom(x)
  {
    var r := x % TWO_61;
    assert (x * 8) % TWO_64 == r * 8;
    assert (LbrFrom(x) % TWO_61) == r;
    assert (LbrFrom(x) * 8) % TWO_64 == r * 8;
  }

  function Cleared(from: seq<U64>): (r: seq<U64>)
    ensures |r| == |from|
  {
    seq(|from|, i requires 0 <= i < |from| => LbrFrom(from[i]))
  }

  /** An image as `get_lbr` reads it: without the flag bits. */
  function Normal(l: Image): (r: Image) {
    l.(from := Cleared(l.from))
  }

  lemma NormalIdempotent(l: Image)
    ensures Normal(Normal(l)) == Normal(l)
  {
    forall i | 0 <= i < LBR_SIZE
      ensures LbrFrom(LbrFrom(l.from[i])) == LbrFrom(l.from[i])
    {
      LbrFromMeaning(l.from[i]);
    }
    assert Cleared(Cleared(l.from)) == Cleared(l.from);
  }

  /** The image shows the registers: every source with its address below bit 61 and the flag bits
      above replaced by copies of bit 60, all else as it is. */
  ghost predicate Shows(image: Image, hw: Image) {
    && image.debug == hw.debug && image.select == hw.select && image.tos == hw.tos && image.to == hw.to
    && forall i :: 0 <= i < LBR_SIZE ==>
         && image.from[i] % TWO_61 == hw.from[i] % TWO_61
         && image.from[i] / TWO_61 == if hw.from[i] % TWO_61 < TWO_61 / 2 then 0 else 7
  }

  lemma {:induction false} NormalShows(l: Image)
    ensures Shows(Normal(l), l)
  {
    hide LbrFrom;
    forall i | 0 <= i < LBR_SIZE
      ensures Normal(l).from[i] % TWO_61 == l.from[i] % TWO_61
      ensures Normal(l).from[i] / TWO_61 == if l.from[i] % TWO_61 < TWO_61 / 2 then 0 else 7
    {
      LbrFromMeaning(l.from[i]);
    }
  }

  /** The same branches: the images differ in flag bits only. */
  ghost predicate SameBranches(a: Image, b: Image) {
    && a.debug == b.debug && a.select == b.select && a.tos == b.tos && a.to == b.to
    && forall i :: 0 <= i < LBR_SIZE ==> a.from[i] % TWO_61 == b.from[i] % TWO_61
  }

  /** Two images are read alike if and only if they hold the same branches. */
  lemma {:induction false} NormalAgrees(a: Image, b: Image)
    ensures Normal(a) == Normal(b) <==> SameBranches(a, b)
  {
    hide LbrFrom;
    NormalShows(a);
    NormalShows(b);
    if SameBranches(a, b) {
      forall i | 0 <= i < LBR_SIZE
        ensures LbrFrom(a.from[i]) == LbrFrom(b.from[i])
      {
        LbrFromMeaning(a.from[i]);
        LbrFromMeaning(b.from[i]);
      }
      assert Cleared(a.from) == Cleared(b.from);
    }
  }

  // ----- The registers

  /** IA32_DEBUGCTL: the lowest bit enables the LBR. */
  predicate Recording(l: Image) {
    l.debug % 2 == 1
  }

  function Flush(l: Image, enable: bool): Image {
    Image(if enable then 1 else 0, l.select, 0, ZEROS, ZEROS)
  }

  /** A branch in user code: the hardware records it, if recording is on. */
  function Branch(l: Image, from: U64, to: U64): Image {
    if Recording(l) then
      var t := (l.tos + 1) % LBR_SIZE;
      l.(tos := t, from := l.from[t := from], to := l.to[t := to])
    else l
  }

  // ----- The digest input

  /** The entries from oldest to newest, as the analyser reads them. */
  ghost function OldestFirst(l: Image): (v: seq<Entry>)
    ensures |v| == LBR_SIZE && v[LBR_SIZE - 1] == Entry(l.from[l.tos], l.to[l.tos])
  {
    seq(LBR_SIZE, i requires 0 <= i < LBR_SIZE =>
      Entry(l.from[(l.tos + i + 1) % LBR_SIZE], l.to[(l.tos + i + 1) % LBR_SIZE]))
  }

  /** Moving the top by one moves every older entry down by one place. */
  lemma TopMoves(tos: U64, i: nat)
    requires tos < LBR_SIZE && i < LBR_SIZE
    ensures var t := (tos + 1) % LBR_SIZE;
            && t < LBR_SIZE && (i == LBR_SIZE - 1 ==> (t + i + 1) % LBR_SIZE == t)
            && (i < LBR_SIZE - 1 ==> (t + i + 1) % LBR_SIZE == (tos + (i + 1) + 1) % LBR_SIZE != t)
  {
  }

  /** A recorded branch becomes the newest entry and pushes out the oldest. */
  lemma {:induction false} BranchAppends(l: Image, from: U64, to: U64)
    ensures Branch(l, from, to).debug == l.debug && Branch(l, from, to).select == l.select
    ensures OldestFirst(Branch(l, from, to)) == if Recording(l) then OldestFirst(l)[1..] + [Entry(from, to)] else OldestFirst(l)
  {
    if Recording(l) {
      var v, v' := OldestFirst(l), OldestFirst(Branch(l, from, to));
      forall i | 0 <= i < LBR_SIZE
        ensures v'[i] == if i < LBR_SIZE - 1 then v[i + 1] else Entry(from, to)
      {
        TopMoves(l.tos, i);
      }
      assert v' == v[1..] + [Entry(from, to)];
    }
  }

  /** The words of the entries, last entry first. */
  ghost function NewestFirstWords(v: seq<Entry>): seq<nat> {
    if v == [] then [] else NewestFirstWords(v[1..]) + [v[0].from, v[0].to]
  }

  /** The wrapped unsigned difference counts backwards what the analyser counts forwards. */
  lemma HashIndex(tos: U64, i: nat)
    requires tos < LBR_SIZE && i < LBR_SIZE
    ensures ((tos - i) % TWO_64) % LBR_SIZE == (tos + (LBR_SIZE - 1 - i) + 1) % LBR_SIZE == (tos - i) % LBR_SIZE
  {
  }

  lemma WordsNext(v: seq<Entry>, k: nat)
    requires k < |v|
    ensures NewestFirstWords(v[k..]) == NewestFirstWords(v[k + 1..]) + [v[k].from, v[k].to]
  {
  }

  /** The words `hash_lbr` feeds to the digest. The index is an unsigned difference that wraps at
      2^64. The result depends only on the entries in order, not on where the buffer starts. */
  method HashInput(l: Image) returns (words: seq<nat>)
    ensures words == NewestFirstWords(OldestFirst(l)) && |words| == 2 * LBR_SIZE
    ensures forall i :: 0 <= i < LBR_SIZE ==>
              words[2 * i] == l.from[(l.tos - i) % LBR_SIZE] && words[2 * i + 1] == l.to[(l.tos - i) % LBR_SIZE]
  {
    hide NewestFirstWords;
    words := [];
    ghost var v := OldestFirst(l);
    var i := 0;
    assert v[LBR_SIZE..] == [];
    assert NewestFirstWords([]) == [] by { NoWords(); }
    while i < LBR_SIZE
      invariant 0 <= i <= LBR_SIZE
      invariant words == NewestFirstWords(v[LBR_SIZE - i..]) && |words| == 2 * i
      invariant forall j :: 0 <= j < i ==>
                  words[2 * j] == l.from[(l.tos - j) % LBR_SIZE] && words[2 * j + 1] == l.to[(l.tos - j) % LBR_SIZE]
    {
      var index := ((l.tos - i) % TWO_64) % LBR_SIZE;
      HashIndex(l.tos, i);
      WordsNext(v, LBR_SIZE - 1 - i);
      words := words + [l.from[index], l.to[index]];
      i := i + 1;
    }
    assert v[0..] == v;
  }

  lemma NoWords()
    ensures NewestFirstWords([]) == []
  {
  }
}
