/** The status frame of the hash boards: a layout computed from per-chain chip counts, guarded by a CRC-16. */
module StatusFrame {
  import C = Crc16

  type Bytes = seq<bv8>

  /** sizeof(struct BITMAIN_STATUS_DATA), the buffer frames are read into, and the fixed part of a frame. */
  const SIZE: nat := 1104
  const HEADER: nat := 28
  const CHAIN_SIZE: nat := 16
  const ROW: nat := 32

  function Num(b: bv8): (n: nat)
    ensures n < 256
  {
    b as nat
  }

  // ---- sizes ----

  /** The 32-bit words of a chip bitmap. */
  function Words(n: nat): nat {
    if n == 0 then 1 else if n % 32 == 0 then n / 32 else n / 32 + 1
  }

  /** One bit per chip, in as few words as possible but at least one; at most a row of eight words. */
  lemma WordsFit(n: nat)
    ensures Words(n) >= 1 && n <= 32 * Words(n) && (n > 0 ==> 32 * (Words(n) - 1) < n)
    ensures n < 256 ==> 4 * Words(n) <= ROW
  {
  }

  function Width(count: bv8): (w: nat)
    ensures 4 <= w <= ROW
  {
    4 * Words(Num(count))
  }

  /** The bytes of one run of bitmaps. */
  function Run(counts: Bytes): (r: nat)
    ensures r <= ROW * |counts|
    decreases |counts|
  {
    if counts == [] then 0 else Run(counts[..|counts| - 1]) + Width(counts[|counts| - 1])
  }

  lemma RunNext(counts: Bytes, i: nat)
    requires i < |counts|
    ensures Run(counts[..i + 1]) == Run(counts[..i]) + Width(counts[i])
  {
    assert counts[..i + 1][..i] == counts[..i];
  }

  lemma {:induction false} RunMonotone(counts: Bytes, i: nat)
    requires i <= |counts|
    ensures Run(counts[..i]) <= Run(counts)
    decreases |counts| - i
  {
    if i < |counts| {
      RunNext(counts, i);
      RunMonotone(counts, i + 1);
    } else {
      assert counts[..i] == counts;
    }
  }

  // ---- what is accepted ----

  function Chains(b: Bytes): nat requires |b| >= HEADER { Num(b[5]) }
  function Fans(b: Bytes): nat requires |b| >= HEADER { Num(b[12]) }
  function Temps(b: Bytes): nat requires |b| >= HEADER { Num(b[13]) }

  /** The length field, low byte first. */
  function LengthField(b: Bytes): nat requires |b| >= HEADER { Num(b[2]) + 256 * Num(b[3]) }

  /** Type, length and CRC are right. */
  predicate Checked(b: Bytes, datalen: nat)
    requires |b| == SIZE && datalen <= SIZE
  {
    b[0] == 0xA1 && LengthField(b) + 4 == datalen
      && C.Crc(0xFFFF, b[..datalen - 2]) == C.Word(b[datalen - 1], b[datalen - 2])
  }

  /** The chains fit the struct and their counts, which are looked for only if there are chains, lie in the frame. */
  predicate Sized(b: Bytes, datalen: nat)
    requires |b| == SIZE && datalen <= SIZE
  {
    Chains(b) <= CHAIN_SIZE && (Chains(b) > 0 ==> Chains(b) + Temps(b) + Fans(b) + 2 <= datalen)
  }

  /** The chip counts, found from the end of the frame. */
  function Counts(b: Bytes, datalen: nat): (r: Bytes)
    requires |b| == SIZE && datalen <= SIZE && Sized(b, datalen)
    ensures |r| == Chains(b)
  {
    if Chains(b) == 0 then []
    else
      var at := datalen - 2 - Chains(b) - Temps(b) - Fans(b);
      b[at..at + Chains(b)]
  }

  predicate Accepts(b: Bytes, datalen: nat)
    requires |b| == SIZE && datalen <= SIZE
  {
    && Checked(b, datalen) && Sized(b, datalen)
    && HEADER + 2 * Run(Counts(b, datalen)) + Chains(b) + Temps(b) + Fans(b) + 2 == datalen
  }

  // ---- the parser ----

  /** A sum stored in the 16-bit index. */
  function Wrapped(i: nat): (r: nat)
    ensures i < 0x1_0000 ==> r == i
  {
    i % 0x1_0000
  }

  /** The variable part of the struct that the parser fills. */
  datatype Data = Data(exist: seq<Bytes>, status: seq<Bytes>, num: Bytes, temp: Bytes, fan: Bytes) {
    predicate Shaped() {
      && |exist| == |status| == CHAIN_SIZE && |num| == CHAIN_SIZE && |temp| == |fan| == 16
      && (forall i | 0 <= i < CHAIN_SIZE :: |exist[i]| == ROW && |status[i]| == ROW)
    }
  }

  /** memcpy */
  function Over(dst: Bytes, src: Bytes): (r: Bytes)
    requires |src| <= |dst|
    ensures |r| == |dst| && r[..|src|] == src && r[|src|..] == dst[|src|..]
  {
    src + dst[|src|..]
  }

  /** The bitmap of chain i in a run that starts at `start`. */
  function Bitmap(b: Bytes, start: nat, counts: Bytes, i: nat): (r: Bytes)
    requires i < |counts| && start + Run(counts) <= |b|
    ensures |r| == Width(counts[i])
  {
    RunNext(counts, i);
    RunMonotone(counts, i + 1);
    Piece(b, start + Run(counts[..i]), Width(counts[i]))
  }

  function Piece(b: Bytes, at: nat, n: nat): (r: Bytes)
    requires at + n <= |b|
    ensures |r| == n
  {
    b[at..at + n]
  }

  /** The first k rows hold a run of bitmaps, the others are untouched. */
  ghost predicate Copied(b: Bytes, start: nat, counts: Bytes, before: seq<Bytes>, after: seq<Bytes>, k: nat) {
    && |before| == |after| == CHAIN_SIZE && k <= |counts| <= CHAIN_SIZE && start + Run(counts) <= |b|
    && (forall i | 0 <= i < CHAIN_SIZE :: |before[i]| == ROW && |after[i]| == ROW)
    && (forall i: nat | i < k :: after[i] == Over(before[i], Bitmap(b, start, counts, i)))
    && (forall i: nat | k <= i < CHAIN_SIZE :: after[i] == before[i])
  }

  lemma OneMore(b: Bytes, start: nat, counts: Bytes, before: seq<Bytes>, after: seq<Bytes>, k: nat)
    requires Copied(b, start, counts, before, after, k) && k < |counts|
    ensures Copied(b, start, counts, before, after[k := Over(after[k], Bitmap(b, start, counts, k))], k + 1)
  {
    hide Run, Over, Bitmap;
  }

  /** The loop over the chains, with its 16-bit index. It is written out twice, and both times it fills
      chain_asic_exist. */
  method CopyRun(buf: array<bv8>, counts: Bytes, before: seq<Bytes>, start: nat)
    returns (rows: seq<Bytes>, dataindex: nat)
    requires buf.Length == SIZE && |counts| <= CHAIN_SIZE && start + Run(counts) <= SIZE && |before| == CHAIN_SIZE
    requires forall i | 0 <= i < CHAIN_SIZE :: |before[i]| == ROW
    ensures Copied(buf[..], start, counts, before, rows, |counts|)
    ensures dataindex == start + Run(counts)
  {
    rows, dataindex := before, start;
    var i: nat := 0;
    while i < |counts|
      invariant i <= |counts| && dataindex == start + Run(counts[..i])
      invariant Copied(buf[..], start, counts, before, rows, i)
    {
      hide Run, Over, Words, Copied, Wrapped;
      RunNext(counts, i);
      RunMonotone(counts, i + 1);
      OneMore(buf[..], start, counts, before, rows, i);
      var n := Width(counts[i]);
      assert buf[dataindex..dataindex + n] == Bitmap(buf[..], start, counts, i);
      RowLength(buf[..], start, counts, before, rows, i);
      rows := rows[i := Over(rows[i], buf[dataindex..dataindex + n])];
      dataindex := Wrapped(dataindex + n);
      i := i + 1;
    }
    assert counts[..i] == counts;
  }

  lemma RowLength(b: Bytes, start: nat, counts: Bytes, before: seq<Bytes>, after: seq<Bytes>, k: nat)
    requires Copied(b, start, counts, before, after, k) && k < |counts|
    ensures |after| == CHAIN_SIZE && |after[k]| == ROW
  {
  }

  /** The second pass leaves only its own bitmaps. */
  lemma SecondPass(b: Bytes, start: nat, counts: Bytes, before: seq<Bytes>, rows: seq<Bytes>, i: nat)
    requires Copied(b, start, counts, before, rows, |counts|) && i < |counts|
    ensures |rows| == CHAIN_SIZE && |rows[i]| == ROW && rows[i][..Width(counts[i])] == Bitmap(b, start, counts, i)
  {
    hide Bitmap;
  }

  lemma RowsShaped(b: Bytes, start: nat, counts: Bytes, before: seq<Bytes>, rows: seq<Bytes>, k: nat)
    requires Copied(b, start, counts, before, rows, k)
    ensures |rows| == CHAIN_SIZE && forall i | 0 <= i < CHAIN_SIZE :: |rows[i]| == ROW
  {
  }

  /** The rows of the chains begin with the bitmaps of the second run. */
  ghost predicate SecondRun(b: Bytes, counts: Bytes, rows: seq<Bytes>) {
    && |rows| == CHAIN_SIZE && (forall i | 0 <= i < CHAIN_SIZE :: |rows[i]| == ROW)
    && |counts| <= CHAIN_SIZE && HEADER + 2 * Run(counts) <= |b|
    && (forall i: nat | i < |counts| :: rows[i][..Width(counts[i])] == Bitmap(b, HEADER + Run(counts), counts, i))
  }

  /** Both runs of bitmaps. */
  method CopyBoth(buf: array<bv8>, counts: Bytes, before: seq<Bytes>) returns (rows: seq<Bytes>, dataindex: nat)
    requires buf.Length == SIZE && |counts| <= CHAIN_SIZE && |before| == CHAIN_SIZE
    requires forall i | 0 <= i < CHAIN_SIZE :: |before[i]| == ROW
    ensures SecondRun(buf[..], counts, rows) && dataindex == HEADER + 2 * Run(counts) <= SIZE
  {
    hide Run, Copied, Bitmap;
    var exist;
    exist, dataindex := CopyRun(buf, counts, before, HEADER);
    RowsShaped(buf[..], HEADER, counts, before, exist, |counts|);
    rows, dataindex := CopyRun(buf, counts, exist, dataindex);
    RowsShaped(buf[..], HEADER + Run(counts), counts, exist, rows, |counts|);
    forall i: nat | i < |counts|
      ensures rows[i][..Width(counts[i])] == Bitmap(buf[..], HEADER + Run(counts), counts, i)
    {
      SecondPass(buf[..], HEADER + Run(counts), counts, exist, rows, i);
    }
  }

  /** The checks of type, length and CRC. */
  method Check(buf: array<bv8>, datalen: nat) returns (ok: bool)
    requires buf.Length == SIZE && datalen <= SIZE
    ensures ok == Checked(buf[..], datalen)
  {
    hide Num, C.Crc, C.Word;
    if buf[0] != 0xA1 {
      return false;
    }
    if Num(buf[2]) + 256 * Num(buf[3]) + 4 != datalen {
      return false;
    }
    var crc := C.Crc16(buf[..datalen - 2]);
    assert buf[..][..datalen - 2] == buf[..datalen - 2];
    ok := crc == C.Word(buf[datalen - 1], buf[datalen - 2]);
  }

  /** What an accepted frame leaves in the struct: of each chain the second bitmap only, in chain_asic_exist, while
      chain_asic_status keeps what was there. */
  ghost predicate Filled(b: Bytes, datalen: nat, garbage: Data, bm: Data) {
    && |b| == SIZE && datalen <= SIZE && Accepts(b, datalen) && Temps(b) <= 16 && Fans(b) <= 16 && bm.Shaped()
    && var counts := Counts(b, datalen);
      var temps := TempsAt(counts);
      && bm.status == garbage.status && SecondRun(b, counts, bm.exist)
      && bm.num[..|counts|] == counts && counts == b[temps - |counts|..temps]
      && bm.temp[..Temps(b)] == b[temps..temps + Temps(b)]
      && bm.fan[..Fans(b)] == b[temps + Temps(b)..datalen - 2]
  }

  /** Where the temperatures start, counted from the front. */
  function TempsAt(counts: Bytes): nat {
    HEADER + 2 * Run(counts) + |counts|
  }

  /** An accepted frame, its chip counts and bitmaps copied, and where its temperatures start. */
  ghost predicate RestAt(b: Bytes, datalen: nat, garbage: Data, exist: seq<Bytes>, num: Bytes, at: nat, temps: nat,
                         fans: nat) {
    && |b| == SIZE && datalen <= SIZE && Accepts(b, datalen) && garbage.Shaped()
    && temps == Temps(b) <= 16 && fans == Fans(b) <= 16 && at + temps + fans + 2 == datalen
    && var counts := Counts(b, datalen);
      && at == TempsAt(counts) && SecondRun(b, counts, exist) && |counts| <= CHAIN_SIZE
      && num == Over(garbage.num, counts)
  }

  lemma RestIs(b: Bytes, datalen: nat, garbage: Data, exist: seq<Bytes>, num: Bytes, at: nat, temps: nat, fans: nat)
    requires |b| == SIZE && datalen <= SIZE && Accepts(b, datalen) && garbage.Shaped()
    requires temps == Temps(b) <= 16 && fans == Fans(b) <= 16 && at + temps + fans + 2 == datalen
    requires var counts := Counts(b, datalen);
      && at == TempsAt(counts) && SecondRun(b, counts, exist) && |counts| <= CHAIN_SIZE
      && num == Over(garbage.num, counts)
    ensures RestAt(b, datalen, garbage, exist, num, at, temps, fans)
  {
    hide Over, Run, SecondRun, Checked, Num, Sized, Accepts;
  }

  lemma RestBounds(b: Bytes, datalen: nat, garbage: Data, exist: seq<Bytes>, num: Bytes, at: nat, temps: nat, fans: nat)
    requires RestAt(b, datalen, garbage, exist, num, at, temps, fans)
    ensures temps <= 16 == |garbage.temp| && fans <= 16 == |garbage.fan|
      && at + temps + fans + 2 <= |b| == SIZE < 0x1_0000
  {
    hide Over, Run, SecondRun, Checked, Num, Sized, Accepts;
  }

  /** The chip counts of an accepted frame lie where the temperatures begin. */
  lemma CountsBefore(b: Bytes, datalen: nat)
    requires |b| == SIZE && datalen <= SIZE && Accepts(b, datalen)
    ensures var counts := Counts(b, datalen);
      && |counts| <= CHAIN_SIZE && |counts| <= TempsAt(counts)
      && TempsAt(counts) + Temps(b) + Fans(b) + 2 == datalen
      && counts == b[TempsAt(counts) - |counts|..TempsAt(counts)]
  {
    hide Checked, Num, Run;
  }

  /** The bytes that have been copied to the front of a field of the struct. */
  ghost predicate StartsWith(field: Bytes, size: nat, b: Bytes, at: nat, n: nat) {
    at + n <= |b| && n <= |field| == size && field[..n] == b[at..at + n]
  }

  lemma Starts(dst: Bytes, b: Bytes, at: nat, n: nat)
    requires at + n <= |b| && n <= |dst|
    ensures StartsWith(Over(dst, b[at..at + n]), |dst|, b, at, n)
  {
    assert |b[at..at + n]| == n;
    hide Over;
  }

  lemma FillsIn(b: Bytes, datalen: nat, garbage: Data, exist: seq<Bytes>, num: Bytes, temp: Bytes, fan: Bytes,
                at: nat, temps: nat, fans: nat)
    requires temps <= 16 == |garbage.temp| && fans <= 16 == |garbage.fan| && at + temps + fans <= |b|
    requires temp == Over(garbage.temp, b[at..at + temps]) && fan == Over(garbage.fan, b[at + temps..at + temps + fans])
    requires RestAt(b, datalen, garbage, exist, num, at, temps, fans)
    ensures Filled(b, datalen, garbage, Data(exist, garbage.status, num, temp, fan))
  {
    hide *;
    Starts(garbage.temp, b, at, temps);
    Starts(garbage.fan, b, at + temps, fans);
    FilledIs(b, datalen, garbage, exist, num, temp, fan, at, temps, fans);
  }

  lemma FilledIs(b: Bytes, datalen: nat, garbage: Data, exist: seq<Bytes>, num: Bytes, temp: Bytes, fan: Bytes,
                 at: nat, temps: nat, fans: nat)
    requires RestAt(b, datalen, garbage, exist, num, at, temps, fans)
    requires StartsWith(temp, |garbage.temp|, b, at, temps) && StartsWith(fan, |garbage.fan|, b, at + temps, fans)
    ensures Filled(b, datalen, garbage, Data(exist, garbage.status, num, temp, fan))
  {
    CountsCopied(b, datalen, garbage, exist, num, at, temps, fans);
    hide Over, Run, Width, Bitmap, Accepts, Counts, TempsAt, Temps, Fans, Sized, Checked, SecondRun;
  }

  lemma CountsCopied(b: Bytes, datalen: nat, garbage: Data, exist: seq<Bytes>, num: Bytes, at: nat, temps: nat,
                     fans: nat)
    requires RestAt(b, datalen, garbage, exist, num, at, temps, fans)
    ensures |b| == SIZE && datalen <= SIZE && Sized(b, datalen)
    ensures var counts := Counts(b, datalen);
      && |counts| <= TempsAt(counts) <= |b| && |counts| <= |num| == |garbage.num|
      && num[..|counts|] == counts && counts == b[TempsAt(counts) - |counts|..TempsAt(counts)]
  {
    assert Sized(b, datalen);
    hide Over, Run, SecondRun, Checked, Num, Sized;
    CountsBefore(b, datalen);
  }

  /** parse_status_data, up to its report. What is copied must lie in the frame and fit the struct: the chip counts of
      a frame that passes the first checks, and the temperatures and fans of a frame that passes all of them. */
  method ParseStatusData(buf: array<bv8>, datalen: nat, garbage: Data) returns (ok: bool, bm: Data)
    requires buf.Length == SIZE && datalen <= SIZE && garbage.Shaped()
    requires Checked(buf[..], datalen) ==> Sized(buf[..], datalen)
    requires Accepts(buf[..], datalen) ==> Temps(buf[..]) <= 16 && Fans(buf[..]) <= 16
    ensures ok == Accepts(buf[..], datalen)
    ensures ok ==> Filled(buf[..], datalen, garbage, bm)
  {
    bm := garbage;
    ok := Check(buf, datalen);
    hide Checked, Num, Run, Bitmap, Over, Width, Filled, Wrapped;
    if !ok {
      return;
    }
    var chains, temps, fans := Num(buf[5]), Num(buf[13]), Num(buf[12]);
    assert chains == Chains(buf[..]) && temps == Temps(buf[..]) && fans == Fans(buf[..]);
    var num := bm.num;
    if chains > 0 {
      num := CopyIn(buf, datalen - 2 - chains - temps - fans, chains, bm.num);
    }
    ok, bm := FillStruct(buf, datalen, chains, temps, fans, num, garbage);
  }

  /** The part that depends on the chip counts. */
  method FillStruct(buf: array<bv8>, datalen: nat, chains: nat, temps: nat, fans: nat, num: Bytes, garbage: Data)
    returns (ok: bool, bm: Data)
    requires buf.Length == SIZE && datalen <= SIZE && garbage.Shaped() && Checked(buf[..], datalen)
      && Sized(buf[..], datalen)
    requires chains == Chains(buf[..]) && temps == Temps(buf[..]) && fans == Fans(buf[..])
    requires Accepts(buf[..], datalen) ==> temps <= 16 && fans <= 16
    requires num == Over(garbage.num, Counts(buf[..], datalen))
    ensures ok == Accepts(buf[..], datalen)
    ensures ok ==> Filled(buf[..], datalen, garbage, bm)
  {
    ghost var b := buf[..];
    ghost var counts := Counts(b, datalen);
    bm := garbage;
    AcceptsBySum(b, datalen);
    ShapesOf(garbage);
    hide *;
    var exist, dataindex := CopyBoth(buf, num[..chains], bm.exist);
    assert num[..chains] == counts;
    TempsAtIs(counts);
    dataindex := Wrapped(dataindex + chains);
    ok := dataindex + temps + fans + 2 == datalen;
    if ok {
      RestIs(b, datalen, garbage, exist, num, dataindex, temps, fans);
      bm := FillRest(buf, datalen, dataindex, temps, fans, exist, num, garbage);
    }
  }

  lemma ShapesOf(d: Data)
    requires d.Shaped()
    ensures |d.exist| == CHAIN_SIZE && |d.num| == CHAIN_SIZE && |d.temp| == 16 && |d.fan| == 16
    ensures forall i | 0 <= i < CHAIN_SIZE :: |d.exist[i]| == ROW
  {
  }

  lemma TempsAtIs(counts: Bytes)
    ensures TempsAt(counts) == HEADER + 2 * Run(counts) + |counts|
  {
  }

  /** Temperatures and fans, once the frame is accepted. */
  method FillRest(buf: array<bv8>, datalen: nat, at: nat, temps: nat, fans: nat, exist: seq<Bytes>, num: Bytes,
                  garbage: Data)
    returns (bm: Data)
    requires RestAt(buf[..], datalen, garbage, exist, num, at, temps, fans)
    ensures Filled(buf[..], datalen, garbage, bm)
  {
    hide *;
    RestBounds(buf[..], datalen, garbage, exist, num, at, temps, fans);
    var temp := CopyIn(buf, at, temps, garbage.temp);
    var dataindex := Wrapped(at + temps);
    var fan := CopyIn(buf, dataindex, fans, garbage.fan);
    bm := Data(exist, garbage.status, num, temp, fan);
    FillsIn(buf[..], datalen, garbage, exist, num, temp, fan, at, temps, fans);
  }

  /** The last check. */
  lemma AcceptsBySum(b: Bytes, datalen: nat)
    requires |b| == SIZE && datalen <= SIZE && Checked(b, datalen) && Sized(b, datalen)
    ensures Accepts(b, datalen) == (TempsAt(Counts(b, datalen)) + Temps(b) + Fans(b) + 2 == datalen)
    ensures |Counts(b, datalen)| == Chains(b) <= CHAIN_SIZE
  {
    hide Checked, Num, Run;
  }

  /** memcpy of n bytes of the frame */
  method CopyIn(buf: array<bv8>, at: nat, n: nat, dst: Bytes) returns (r: Bytes)
    requires at + n <= buf.Length && n <= |dst|
    ensures r == Over(dst, buf[..][at..at + n])
  {
    assert buf[..][at..at + n] == buf[at..at + n];
    r := Over(dst, buf[at..at + n]);
  }

  // ---- frames as the hash boards lay them out ----

  datatype Frame = Frame(header: Bytes, exist: seq<Bytes>, status: seq<Bytes>, counts: Bytes, temps: Bytes, fans: Bytes)

  function Flat(rows: seq<Bytes>): Bytes
    decreases |rows|
  {
    if rows == [] then [] else Flat(rows[..|rows| - 1]) + rows[|rows| - 1]
  }

  function Body(f: Frame): Bytes {
    f.header + (Flat(f.exist) + (Flat(f.status) + (f.counts + (f.temps + f.fans))))
  }

  /** The body and its CRC, low byte first. */
  function Whole(f: Frame): (r: Bytes)
    ensures |r| == |Body(f)| + 2
  {
    Body(f) + C.Split(C.Crc(0xFFFF, Body(f)))
  }

  /** One bitmap per chain, of the width its count asks for. */
  predicate Rows(rows: seq<Bytes>, counts: Bytes) {
    |rows| == |counts| && forall i | 0 <= i < |counts| :: |rows[i]| == Width(counts[i])
  }

  predicate WellFormed(f: Frame) {
    && |f.header| == HEADER && f.header[0] == 0xA1 && LengthField(f.header) + 4 == |Whole(f)|
    && Chains(f.header) == |f.counts| <= CHAIN_SIZE && Temps(f.header) == |f.temps| && Fans(f.header) == |f.fans|
    && Rows(f.exist, f.counts) && Rows(f.status, f.counts)
  }

  lemma {:induction false} FlatLength(rows: seq<Bytes>, counts: Bytes)
    requires Rows(rows, counts)
    ensures |Flat(rows)| == Run(counts)
    decreases |rows|
  {
    if rows != [] {
      FlatLength(rows[..|rows| - 1], counts[..|counts| - 1]);
    }
  }

  /** Cut a run of bitmaps out of the buffer. */
  function Bitmaps(b: Bytes, start: nat, counts: Bytes): (rows: seq<Bytes>)
    requires start + Run(counts) <= |b|
    ensures Rows(rows, counts)
  {
    seq(|counts|, i requires 0 <= i < |counts| => Bitmap(b, start, counts, i))
  }

  lemma NoRun(counts: Bytes)
    ensures Run(counts[..0]) == 0
  {
  }

  lemma {:induction false} FlatBitmaps(b: Bytes, start: nat, counts: Bytes, k: nat)
    requires start + Run(counts) <= |b| && k <= |counts|
    ensures start + Run(counts[..k]) <= |b|
    ensures Flat(Bitmaps(b, start, counts)[..k]) == b[start..start + Run(counts[..k])]
    decreases k
  {
    hide Width, Run;
    RunMonotone(counts, k);
    if k == 0 {
      NoRun(counts);
    } else {
      RunNext(counts, k - 1);
      FlatBitmaps(b, start, counts, k - 1);
      var rows := Bitmaps(b, start, counts);
      assert rows[..k][..k - 1] == rows[..k - 1];
    }
  }

  /** The i-th row inside the flattened rows. */
  lemma {:induction false} RowInFlat(rows: seq<Bytes>, counts: Bytes, i: nat)
    requires Rows(rows, counts) && i < |counts|
    ensures Run(counts[..i]) + Width(counts[i]) <= |Flat(rows)| == Run(counts)
    ensures Flat(rows)[Run(counts[..i])..Run(counts[..i]) + Width(counts[i])] == rows[i]
    decreases |rows|
  {
    hide *;
    RowCount(rows, counts);
    var n := |rows| - 1;
    LastRow(rows, counts);
    if i < n {
      assert counts[..n][..i] == counts[..i] && rows[..n][i] == rows[i] && counts[..n][i] == counts[i];
      RowInFlat(rows[..n], counts[..n], i);
      PrefixSlice(Flat(rows[..n]), rows[n], Run(counts[..i]), Run(counts[..i]) + Width(counts[i]));
    } else {
      SuffixSlice(Flat(rows[..n]), rows[n]);
    }
  }

  lemma RowCount(rows: seq<Bytes>, counts: Bytes)
    requires Rows(rows, counts)
    ensures |rows| == |counts|
  {
  }

  /** Flattening puts the last row at the end. */
  lemma LastRow(rows: seq<Bytes>, counts: Bytes)
    requires Rows(rows, counts) && rows != []
    ensures var n := |rows| - 1;
            && |counts| == n + 1 && Rows(rows[..n], counts[..n]) && Flat(rows) == Flat(rows[..n]) + rows[n]
            && |Flat(rows[..n])| == Run(counts[..n]) && |Flat(rows)| == Run(counts)
            && |rows[n]| == Width(counts[n])
  {
    FlatLength(rows, counts);
    FlatLength(rows[..|rows| - 1], counts[..|rows| - 1]);
    hide Run, Width;
  }

  lemma SuffixSlice<T>(a: seq<T>, b: seq<T>)
    ensures (a + b)[|a|..|a| + |b|] == b
  {
  }

  lemma PrefixSlice<T>(a: seq<T>, b: seq<T>, j: nat, k: nat)
    requires j <= k <= |a|
    ensures (a + b)[j..k] == a[j..k]
  {
  }

  function Cut(b: Bytes, datalen: nat): (f: Frame)
    requires |b| == SIZE && datalen <= SIZE && Accepts(b, datalen)
    ensures Rows(f.exist, f.counts) && Rows(f.status, f.counts)
  {
    var counts := Counts(b, datalen);
    var temps := TempsAt(counts);
    Frame(b[..HEADER], Bitmaps(b, HEADER, counts), Bitmaps(b, HEADER + Run(counts), counts), counts,
          b[temps..temps + Temps(b)], b[temps + Temps(b)..datalen - 2])
  }

  lemma Sections<T>(b: seq<T>, p1: nat, p2: nat, p3: nat, p4: nat, p5: nat, p6: nat, p7: nat)
    requires p1 <= p2 <= p3 <= p4 <= p5 <= p6 <= p7 <= |b|
    ensures b[..p7] == (b[..p1] + (b[p1..p2] + (b[p2..p3] + (b[p3..p4] + (b[p4..p5] + b[p5..p6]))))) + b[p6..p7]
    ensures b[..p6] == b[..p1] + (b[p1..p2] + (b[p2..p3] + (b[p3..p4] + (b[p4..p5] + b[p5..p6]))))
  {
    assert b[p4..p5] + b[p5..p6] == b[p4..p6];
    assert b[p3..p4] + b[p4..p6] == b[p3..p6];
    assert b[p2..p3] + b[p3..p6] == b[p2..p6];
    assert b[p1..p2] + b[p2..p6] == b[p1..p6];
    assert b[..p1] + b[p1..p6] == b[..p6];
    assert b[..p6] + b[p6..p7] == b[..p7];
  }

  /** The rows cut out are the bytes they were cut from. */
  lemma RowsBack(b: Bytes, start: nat, counts: Bytes)
    requires start + Run(counts) <= |b|
    ensures Flat(Bitmaps(b, start, counts)) == b[start..start + Run(counts)]
  {
    hide Run, Flat, Bitmap;
    FlatBitmaps(b, start, counts, |counts|);
    assert counts[..|counts|] == counts;
    assert Bitmaps(b, start, counts)[..|counts|] == Bitmaps(b, start, counts);
  }

  /** The CRC bytes of a checked frame. */
  lemma CheckedCrc(b: Bytes, datalen: nat)
    requires |b| == SIZE && datalen <= SIZE && Checked(b, datalen)
    ensures datalen >= 4 && b[datalen - 2..datalen] == C.Split(C.Crc(0xFFFF, b[..datalen - 2]))
  {
    hide C.Crc, C.Word, Num;
    C.WordSplit(b[datalen - 1], b[datalen - 2]);
    assert b[datalen - 2..datalen] == [b[datalen - 2], b[datalen - 1]];
  }

  /** The header fields, seen in the frame and in its header. */
  lemma HeaderFields(b: Bytes, header: Bytes)
    requires HEADER <= |b| && header == b[..HEADER]
    ensures header[0] == b[0] && LengthField(header) == LengthField(b)
    ensures Chains(header) == Chains(b) && Temps(header) == Temps(b) && Fans(header) == Fans(b)
  {
    hide Num;
  }

  /** Where the parts of an accepted frame lie. */
  lemma Layout(b: Bytes, datalen: nat)
    requires |b| == SIZE && datalen <= SIZE && Accepts(b, datalen)
    ensures var counts := Counts(b, datalen);
      && TempsAt(counts) + Temps(b) + Fans(b) == datalen - 2 && |counts| == Chains(b) <= CHAIN_SIZE
      && b[HEADER + 2 * Run(counts)..TempsAt(counts)] == counts
      && b[0] == 0xA1 && LengthField(b) + 4 == datalen
  {
    hide Num, Run, C.Crc, C.Word;
  }

  /** Where the parts begin. */
  ghost predicate Marks(b: Bytes, datalen: nat, p2: nat, p3: nat, p4: nat, p5: nat) {
    && |b| == SIZE && datalen <= SIZE && Accepts(b, datalen)
    && p2 == HEADER + Run(Counts(b, datalen)) && p3 == HEADER + 2 * Run(Counts(b, datalen))
    && p4 == TempsAt(Counts(b, datalen)) && p5 == p4 + Temps(b)
  }

  lemma MarkOrder(b: Bytes, datalen: nat, p2: nat, p3: nat, p4: nat, p5: nat)
    requires Marks(b, datalen, p2, p3, p4, p5)
    ensures HEADER <= p2 <= p3 <= p4 <= p5 <= datalen - 2 < SIZE == |b|
    ensures Counts(b, datalen) == b[p3..p4]
  {
    hide Num, Run, C.Crc, C.Word, Checked;
    Layout(b, datalen);
  }

  lemma CutRows(b: Bytes, datalen: nat, p2: nat, p3: nat, p4: nat, p5: nat)
    requires Marks(b, datalen, p2, p3, p4, p5) && HEADER <= p2 <= p3 <= |b|
    ensures Flat(Cut(b, datalen).exist) == b[HEADER..p2] && Flat(Cut(b, datalen).status) == b[p2..p3]
  {
    hide Num, Run, C.Crc, C.Word, Checked, Flat, Counts, Bitmaps;
    RowsBack(b, HEADER, Counts(b, datalen));
    RowsBack(b, p2, Counts(b, datalen));
  }

  lemma CutRest(b: Bytes, datalen: nat, p2: nat, p3: nat, p4: nat, p5: nat)
    requires Marks(b, datalen, p2, p3, p4, p5) && p4 <= p5 <= datalen - 2 < |b|
    ensures var f := Cut(b, datalen);
      f.header == b[..HEADER] && f.counts == Counts(b, datalen) && f.temps == b[p4..p5] && f.fans == b[p5..datalen - 2]
  {
    hide Num, Run, C.Crc, C.Word, Checked, Counts, Bitmaps;
  }

  lemma CutBody(b: Bytes, datalen: nat, p2: nat, p3: nat, p4: nat, p5: nat)
    requires Marks(b, datalen, p2, p3, p4, p5)
    ensures datalen >= 2 && Body(Cut(b, datalen)) == b[..datalen - 2]
  {
    hide Run, Flat, Counts, Chains, Temps, Fans, Body, Cut, Bitmaps, Checked;
    MarkOrder(b, datalen, p2, p3, p4, p5);
    CutRows(b, datalen, p2, p3, p4, p5);
    CutRest(b, datalen, p2, p3, p4, p5);
    Sections(b, HEADER, p2, p3, p4, p5, datalen - 2, datalen);
    BodyOf(Cut(b, datalen), b[..HEADER], b[HEADER..p2], b[p2..p3], b[p3..p4], b[p4..p5], b[p5..datalen - 2],
      b[..datalen - 2]);
  }

  lemma BodyOf(f: Frame, h: Bytes, e: Bytes, s: Bytes, c: Bytes, t: Bytes, x: Bytes, w: Bytes)
    requires f.header == h && Flat(f.exist) == e && Flat(f.status) == s && f.counts == c && f.temps == t && f.fans == x
    requires w == h + (e + (s + (c + (t + x))))
    ensures Body(f) == w
  {
    hide Flat;
  }

  lemma FindMarks(b: Bytes, datalen: nat) returns (p2: nat, p3: nat, p4: nat, p5: nat)
    requires |b| == SIZE && datalen <= SIZE && Accepts(b, datalen)
    ensures Marks(b, datalen, p2, p3, p4, p5) && Checked(b, datalen)
  {
    var counts := Counts(b, datalen);
    p2, p3, p4, p5 := HEADER + Run(counts), HEADER + 2 * Run(counts), TempsAt(counts), TempsAt(counts) + Temps(b);
    hide C.Crc, C.Word, Num, Run;
  }

  lemma WholeIs(f: Frame, body: Bytes, crc: Bytes, all: Bytes)
    requires Body(f) == body && crc == C.Split(C.Crc(0xFFFF, body)) && all == body + crc
    ensures Whole(f) == all
  {
    hide Body, C.Crc, C.Split;
  }

  /** The parts are the whole frame. */
  lemma CutTiles(b: Bytes, datalen: nat)
    requires |b| == SIZE && datalen <= SIZE && Accepts(b, datalen)
    ensures b[..datalen] == Whole(Cut(b, datalen))
  {
    hide *;
    var p2, p3, p4, p5 := FindMarks(b, datalen);
    CheckedCrc(b, datalen);
    CutBody(b, datalen, p2, p3, p4, p5);
    assert b[..datalen] == b[..datalen - 2] + b[datalen - 2..datalen];
    WholeIs(Cut(b, datalen), b[..datalen - 2], b[datalen - 2..datalen], b[..datalen]);
  }

  lemma ProperFrame(f: Frame, datalen: nat)
    requires |f.header| == HEADER && f.header[0] == 0xA1 && LengthField(f.header) + 4 == datalen == |Whole(f)|
    requires Chains(f.header) == |f.counts| <= CHAIN_SIZE && Temps(f.header) == |f.temps|
    requires Fans(f.header) == |f.fans| && Rows(f.exist, f.counts) && Rows(f.status, f.counts)
    ensures WellFormed(f)
  {
    hide C.Crc, C.Split, Num, Body, Whole, Rows;
  }

  /** The parts have the sizes that the header says. */
  lemma CutSizes(b: Bytes, datalen: nat)
    requires |b| == SIZE && datalen <= SIZE && Accepts(b, datalen)
    ensures WellFormed(Cut(b, datalen))
  {
    hide *;
    Layout(b, datalen);
    var p2, p3, p4, p5 := FindMarks(b, datalen);
    MarkOrder(b, datalen, p2, p3, p4, p5);
    CutRest(b, datalen, p2, p3, p4, p5);
    CutTiles(b, datalen);
    HeaderFields(b, Cut(b, datalen).header);
    SizesAre(b, datalen, p2, p3, p4, p5);
    ProperFrame(Cut(b, datalen), datalen);
  }

  lemma SizesAre(b: Bytes, datalen: nat, p2: nat, p3: nat, p4: nat, p5: nat)
    requires Marks(b, datalen, p2, p3, p4, p5)
    ensures p5 == p4 + Temps(b) && p5 + Fans(b) == datalen - 2
  {
    Layout(b, datalen);
    hide C.Crc, C.Word, Num, Run, Checked;
  }

  /** An accepted frame is header, both runs of bitmaps, counts, temperatures, fans and CRC, and nothing else. */
  lemma FrameTiles(b: Bytes, datalen: nat)
    requires |b| == SIZE && datalen <= SIZE && Accepts(b, datalen)
    ensures WellFormed(Cut(b, datalen)) && b[..datalen] == Whole(Cut(b, datalen))
  {
    CutSizes(b, datalen);
    CutTiles(b, datalen);
  }

  lemma AppendTwo<T>(p: seq<T>, q: seq<T>)
    ensures (p + q)[..|p|] == p && (p + q)[|p|..] == q
  {
  }

  /** The parts of six concatenated pieces. */
  lemma Pieces<T>(h: seq<T>, e: seq<T>, s: seq<T>, c: seq<T>, t: seq<T>, x: seq<T>, w: seq<T>)
    requires w == h + (e + (s + (c + (t + x))))
    ensures var p1 := |h|; var p2 := p1 + |e|; var p3 := p2 + |s|; var p4 := p3 + |c|; var p5 := p4 + |t|;
      && |w| == p5 + |x|
      && w[..p1] == h && w[p1..p2] == e && w[p2..p3] == s && w[p3..p4] == c && w[p4..p5] == t && w[p5..] == x
  {
    AppendTwo(h, e + (s + (c + (t + x))));
    AppendTwo(e, s + (c + (t + x)));
    AppendTwo(s, c + (t + x));
    AppendTwo(c, t + x);
    AppendTwo(t, x);
  }

  /** Rows written into the buffer are cut out again. */
  lemma RowsForth(b: Bytes, start: nat, rows: seq<Bytes>, counts: Bytes)
    requires Rows(rows, counts) && start + Run(counts) <= |b| && b[start..start + Run(counts)] == Flat(rows)
    ensures Bitmaps(b, start, counts) == rows
  {
    forall i: nat | i < |counts|
      ensures Bitmap(b, start, counts, i) == rows[i]
    {
      RowForth(b, start, rows, counts, i);
    }
  }

  lemma RowForth(b: Bytes, start: nat, rows: seq<Bytes>, counts: Bytes, i: nat)
    requires Rows(rows, counts) && start + Run(counts) <= |b| && b[start..start + Run(counts)] == Flat(rows)
      && i < |counts|
    ensures Bitmap(b, start, counts, i) == rows[i]
  {
    hide *;
    RowInFlat(rows, counts, i);
    BitmapAt(b, start, counts, i);
    PieceOfSlice(b, start, Run(counts), Run(counts[..i]), Width(counts[i]));
  }

  lemma BitmapAt(b: Bytes, start: nat, counts: Bytes, i: nat)
    requires i < |counts| && start + Run(counts) <= |b|
    ensures start + Run(counts[..i]) + Width(counts[i]) <= |b|
    ensures Bitmap(b, start, counts, i) == Piece(b, start + Run(counts[..i]), Width(counts[i]))
  {
    hide Run, Width, Piece, Num;
    RowBound(counts, i);
  }

  lemma RowBound(counts: Bytes, i: nat)
    requires i < |counts|
    ensures Run(counts[..i]) + Width(counts[i]) <= Run(counts)
  {
    hide *;
    RunNext(counts, i);
    RunMonotone(counts, i + 1);
  }

  lemma PieceOfSlice(b: Bytes, start: nat, n: nat, j: nat, k: nat)
    requires start + n <= |b| && j + k <= n
    ensures b[start..start + n][j..j + k] == Piece(b, start + j, k)
  {
    SliceOfSlice(b, start, n, j, j + k);
  }

  lemma SliceOfSlice<T>(b: seq<T>, start: nat, n: nat, j: nat, k: nat)
    requires start + n <= |b| && j <= k <= n
    ensures b[start..start + n][j..k] == b[start + j..start + k]
  {
    var u, v := b[start..start + n][j..k], b[start + j..start + k];
    assert forall i | 0 <= i < k - j :: u[i] == v[i];
  }

  lemma BodyPieces(f: Frame, p1: nat, p2: nat, p3: nat, p4: nat, p5: nat)
    requires p1 == |f.header| && p2 == p1 + |Flat(f.exist)| && p3 == p2 + |Flat(f.status)| && p4 == p3 + |f.counts|
    requires p5 == p4 + |f.temps|
    ensures |Body(f)| == p5 + |f.fans|
    ensures Body(f)[..p1] == f.header && Body(f)[p1..p2] == Flat(f.exist) && Body(f)[p2..p3] == Flat(f.status)
    ensures Body(f)[p3..p4] == f.counts && Body(f)[p4..p5] == f.temps && Body(f)[p5..] == f.fans
  {
    hide Flat;
    Pieces(f.header, Flat(f.exist), Flat(f.status), f.counts, f.temps, f.fans, Body(f));
  }

  lemma Inside<T>(b: seq<T>, body: seq<T>, j: nat, k: nat)
    requires |body| <= |b| && b[..|body|] == body && j <= k <= |body|
    ensures b[j..k] == body[j..k]
  {
    SliceOfSlice(b, 0, |body|, j, k);
    assert b[0..|body|] == b[..|body|];
  }

  /** The frame sits at the start of the buffer, its parts at the marks. */
  ghost predicate Holds(f: Frame, b: Bytes, p2: nat, p3: nat, p4: nat, p5: nat) {
    && WellFormed(f) && |b| == SIZE && |Whole(f)| <= SIZE && b[..|Whole(f)|] == Whole(f)
    && p2 == HEADER + Run(f.counts) && p3 == p2 + Run(f.counts) && p4 == p3 + |f.counts| && p5 == p4 + |f.temps|
  }

  lemma EncodedEnds(f: Frame, b: Bytes, p2: nat, p3: nat, p4: nat, p5: nat)
    requires Holds(f, b, p2, p3, p4, p5)
    ensures |Body(f)| == p5 + |f.fans| == |Whole(f)| - 2 && b[..|Body(f)|] == Body(f)
    ensures b[|Body(f)|..|Body(f)| + 2] == C.Split(C.Crc(0xFFFF, Body(f)))
  {
    FlatLength(f.exist, f.counts);
    FlatLength(f.status, f.counts);
    BodyPieces(f, HEADER, p2, p3, p4, p5);
    assert Whole(f) == Body(f) + C.Split(C.Crc(0xFFFF, Body(f))) && |b| == SIZE && b[..|Whole(f)|] == Whole(f);
    var body, whole := Body(f), Whole(f);
    hide C.Crc, C.Split, Num, Run, Flat, Rows, Chains, Temps, Fans, LengthField, Body, Whole, WellFormed, Holds;
    AppendTwo(body, C.Split(C.Crc(0xFFFF, body)));
    Inside(b, whole, 0, |body|);
    Inside(b, whole, |body|, |body| + 2);
  }

  lemma EncodedParts(f: Frame, b: Bytes, p2: nat, p3: nat, p4: nat, p5: nat)
    requires Holds(f, b, p2, p3, p4, p5) && p5 + |f.fans| == |Body(f)| <= |b| && b[..|Body(f)|] == Body(f)
    ensures b[..HEADER] == f.header && b[HEADER..p2] == Flat(f.exist) && b[p2..p3] == Flat(f.status)
    ensures b[p3..p4] == f.counts && b[p4..p5] == f.temps && b[p5..|Body(f)|] == f.fans
  {
    FlatLength(f.exist, f.counts);
    FlatLength(f.status, f.counts);
    BodyPieces(f, HEADER, p2, p3, p4, p5);
    var body := Body(f);
    hide C.Crc, C.Split, Num, Run, Flat, Rows, Chains, Temps, Fans, LengthField, Body, Whole;
    Inside(b, body, 0, HEADER);
    Inside(b, body, HEADER, p2);
    Inside(b, body, p2, p3);
    Inside(b, body, p3, p4);
    Inside(b, body, p4, p5);
    Inside(b, body, p5, |body|);
  }

  lemma EncodedChecked(f: Frame, b: Bytes, n: nat)
    requires WellFormed(f) && |b| == SIZE && n == |Whole(f)| <= SIZE && b[..HEADER] == f.header
    requires b[..n - 2] == Body(f) && b[n - 2..n] == C.Split(C.Crc(0xFFFF, Body(f)))
    ensures Checked(b, n) && Chains(b) == |f.counts| && Temps(b) == |f.temps| && Fans(b) == |f.fans|
  {
    hide C.Crc, C.Split, C.Word, Num, Run, Flat, Rows, Body;
    HeaderFields(b, f.header);
    C.SplitWord(C.Crc(0xFFFF, Body(f)));
    assert b[n - 2..n][0] == b[n - 2] && b[n - 2..n][1] == b[n - 1];
  }

  lemma EncodedCounts(f: Frame, b: Bytes, p2: nat, p3: nat, p4: nat, p5: nat)
    requires Holds(f, b, p2, p3, p4, p5) && p5 + |f.fans| + 2 == |Whole(f)|
    requires Checked(b, |Whole(f)|) && Chains(b) == |f.counts| && Temps(b) == |f.temps| && Fans(b) == |f.fans|
    requires b[p3..p4] == f.counts
    ensures Accepts(b, |Whole(f)|) && Counts(b, |Whole(f)|) == f.counts && TempsAt(f.counts) == p4
    ensures Rows(f.exist, f.counts) && Rows(f.status, f.counts) && p2 == HEADER + Run(f.counts)
      && p3 == p2 + Run(f.counts)
  {
    hide C.Crc, C.Split, C.Word, Num, Run, Rows, Flat, Chains, Temps, Fans, LengthField, Whole, Checked;
  }

  lemma CutIs(f: Frame, b: Bytes, n: nat, p2: nat, p4: nat, p5: nat)
    requires |b| == SIZE && n <= SIZE && Accepts(b, n) && Counts(b, n) == f.counts
    requires p2 == HEADER + Run(f.counts) && p2 + Run(f.counts) <= |b| && p4 == TempsAt(f.counts)
    requires p5 == p4 + Temps(b) <= n - 2
    requires f.header == b[..HEADER] && Bitmaps(b, HEADER, f.counts) == f.exist && Bitmaps(b, p2, f.counts) == f.status
    requires f.temps == b[p4..p5] && f.fans == b[p5..n - 2]
    ensures Cut(b, n) == f
  {
    hide C.Crc, C.Word, Num, Run, Counts, Temps, Accepts, Bitmaps, TempsAt;
  }

  lemma HoldsMarks(f: Frame, b: Bytes, p2: nat, p3: nat, p4: nat, p5: nat)
    requires Holds(f, b, p2, p3, p4, p5)
    ensures HEADER <= p2 <= p3 <= p4 <= p5 == p4 + |f.temps| && |b| == SIZE && |Whole(f)| <= SIZE
  {
    hide C.Crc, C.Split, Num, Run, Rows, Flat, Chains, Temps, Fans, LengthField, Whole, Body;
  }

  lemma EncodedCut(f: Frame, b: Bytes, p2: nat, p3: nat, p4: nat, p5: nat)
    requires Holds(f, b, p2, p3, p4, p5) && p5 + |f.fans| + 2 == |Whole(f)|
    requires Checked(b, |Whole(f)|) && Chains(b) == |f.counts| && Temps(b) == |f.temps| && Fans(b) == |f.fans|
    requires b[..HEADER] == f.header && b[HEADER..p2] == Flat(f.exist) && b[p2..p3] == Flat(f.status)
    requires b[p3..p4] == f.counts && b[p4..p5] == f.temps && b[p5..|Whole(f)| - 2] == f.fans
    ensures Accepts(b, |Whole(f)|) && Cut(b, |Whole(f)|) == f
  {
    hide *;
    HoldsMarks(f, b, p2, p3, p4, p5);
    EncodedCounts(f, b, p2, p3, p4, p5);
    RowsForth(b, HEADER, f.exist, f.counts);
    RowsForth(b, p2, f.status, f.counts);
    CutIs(f, b, |Whole(f)|, p2, p4, p5);
  }

  /** Every frame that is laid out properly is accepted, and taken apart into what it was made from. */
  lemma EncodedAccepted(f: Frame, b: Bytes)
    requires WellFormed(f) && |b| == SIZE && |Whole(f)| <= SIZE && b[..|Whole(f)|] == Whole(f)
    ensures Accepts(b, |Whole(f)|) && Cut(b, |Whole(f)|) == f
  {
    var p2 := HEADER + Run(f.counts);
    var p3 := p2 + Run(f.counts);
    var p4 := p3 + |f.counts|;
    var p5 := p4 + |f.temps|;
    hide C.Crc, C.Split, Num, Run, Flat, Chains, Temps, Fans, LengthField, Whole, Body, Rows;
    EncodedEnds(f, b, p2, p3, p4, p5);
    EncodedParts(f, b, p2, p3, p4, p5);
    EncodedChecked(f, b, |Whole(f)|);
    EncodedCut(f, b, p2, p3, p4, p5);
  }

  lemma FilledRows(b: Bytes, n: nat, garbage: Data, bm: Data)
    requires Filled(b, n, garbage, bm)
    ensures bm.Shaped() && |Cut(b, n).counts| <= CHAIN_SIZE
    ensures forall i: nat | i < |Cut(b, n).counts| :: bm.exist[i][..Width(Cut(b, n).counts[i])] == Cut(b, n).status[i]
  {
    hide C.Crc, C.Word, Num, Run, Checked, Bitmap, Counts;
  }

  lemma FilledRest(b: Bytes, n: nat, garbage: Data, bm: Data)
    requires Filled(b, n, garbage, bm)
    ensures var f := Cut(b, n);
      && bm.status == garbage.status && |f.counts| <= |bm.num| && |f.temps| <= |bm.temp| && |f.fans| <= |bm.fan|
      && bm.num[..|f.counts|] == f.counts && bm.temp[..|f.temps|] == f.temps && bm.fan[..|f.fans|] == f.fans
  {
    hide C.Crc, C.Word, Num, Run, Checked, Bitmap, SecondRun;
  }

  /** The parser reads of a proper frame everything but the first run of bitmaps: a row of chain_asic_exist begins with
      its own bitmap exactly when that is also the chain's status bitmap. */
  lemma ParsedFrame(f: Frame, b: Bytes, garbage: Data, bm: Data)
    requires WellFormed(f) && |b| == SIZE && |Whole(f)| <= SIZE && b[..|Whole(f)|] == Whole(f)
    requires Filled(b, |Whole(f)|, garbage, bm)
    ensures bm.status == garbage.status && bm.Shaped()
    ensures forall i: nat | i < |f.counts| ::
              |f.exist| == |f.status| == |f.counts| <= |bm.exist| && Width(f.counts[i]) <= |bm.exist[i]|
              && bm.exist[i][..Width(f.counts[i])] == f.status[i]
              && (bm.exist[i][..Width(f.counts[i])] == f.exist[i] <==> f.exist[i] == f.status[i])
    ensures |f.counts| <= |bm.num| && |f.temps| <= |bm.temp| && |f.fans| <= |bm.fan|
    ensures bm.num[..|f.counts|] == f.counts && bm.temp[..|f.temps|] == f.temps && bm.fan[..|f.fans|] == f.fans
  {
    hide *;
    EncodedAccepted(f, b);
    FilledRows(b, |Whole(f)|, garbage, bm);
    FilledRest(b, |Whole(f)|, garbage, bm);
    CutShape(b, |Whole(f)|, bm);
  }

  /** One bitmap per chain, and room for it. */
  lemma CutShape(b: Bytes, n: nat, bm: Data)
    requires |b| == SIZE && n <= SIZE && Accepts(b, n) && bm.Shaped()
    ensures var f := Cut(b, n);
      && |f.exist| == |f.status| == |f.counts| <= |bm.exist|
      && forall i: nat | i < |f.counts| :: Width(f.counts[i]) <= |bm.exist[i]|
  {
    hide C.Crc, C.Word, Num, Run, Checked, Bitmap, Counts;
  }

  // ---- the header, field by field ----

  /** The first fields of struct BITMAIN_STATUS_DATA, in its order; the two bit fields share a byte. */
  datatype Fields = Fields(dataType: bv8, version: bv8, length: nat, chipValue: bv8, chainNum: bv8, fifoSpace: nat,
                           hwVersion: nat, fanNum: bv8, tempNum: bv8, fanExist: nat, tempExist: nat, nonceErr: nat,
                           regValue: nat)

  /** A number of n bytes, low byte first. */
  function LowFirst(x: nat, n: nat): (r: Bytes)
    ensures |r| == n
  {
    if n == 0 then [] else [(x % 256) as bv8] + LowFirst(x / 256, n - 1)
  }

  function HeaderOf(h: Fields): (r: Bytes)
    ensures |r| == 28
  {
    [h.dataType, h.version] + LowFirst(h.length, 2) + [h.chipValue, h.chainNum] + LowFirst(h.fifoSpace, 2)
    + LowFirst(h.hwVersion, 4) + [h.fanNum, h.tempNum] + LowFirst(h.fanExist, 2) + LowFirst(h.tempExist, 4)
    + LowFirst(h.nonceErr, 4) + LowFirst(h.regValue, 4)
  }

  lemma TwoBytes(x: nat)
    requires x < 0x1_0000
    ensures Num(LowFirst(x, 2)[0]) + 256 * Num(LowFirst(x, 2)[1]) == x
  {
    OfNum(x % 256);
    OfNum(x / 256);
    TwoLow(x);
    hide Num, LowFirst;
  }

  lemma OfNum(x: nat)
    requires x < 256
    ensures Num(x as bv8) == x
  {
  }

  lemma TwoLow(x: nat)
    requires x < 0x1_0000
    ensures LowFirst(x, 2)[0] == (x % 256) as bv8 && LowFirst(x, 2)[1] == (x / 256) as bv8
    ensures x == x % 256 + 256 * (x / 256)
  {
    var y := x / 256;
    assert y % 256 == y;
    assert LowFirst(x, 2) == [(x % 256) as bv8] + LowFirst(y, 1);
    assert LowFirst(y, 1) == [(y % 256) as bv8] + LowFirst(y / 256, 0);
  }

  /** What the parser reads from the header are the struct's fields. */
  lemma FieldsRead(h: Fields)
    requires h.length < 0x1_0000
    ensures var b := HeaderOf(h);
            && |b| == HEADER && b[0] == h.dataType && LengthField(b) == h.length
            && Chains(b) == Num(h.chainNum) && Fans(b) == Num(h.fanNum) && Temps(b) == Num(h.tempNum)
  {
    TwoBytes(h.length);
    hide Num, LowFirst;
    var b := HeaderOf(h);
    assert b[2] == LowFirst(h.length, 2)[0] && b[3] == LowFirst(h.length, 2)[1];
  }

  /** A frame made from the fields of the struct and its parts, one bitmap per chain, is accepted and taken apart into
      these parts, if type, length and numbers are right. */
  lemma FieldsAccepted(h: Fields, f: Frame, b: Bytes)
    requires f.header == HeaderOf(h) && h.dataType == 0xA1 && h.length < 0x1_0000
    requires Rows(f.exist, f.counts) && Rows(f.status, f.counts) && |f.counts| <= 16
    requires Num(h.chainNum) == |f.counts| && Num(h.tempNum) == |f.temps| && Num(h.fanNum) == |f.fans|
    requires |Whole(f)| == h.length + 4 <= SIZE == |b| && b[..|Whole(f)|] == Whole(f)
    ensures Accepts(b, h.length + 4) && Cut(b, h.length + 4) == f
  {
    FieldsRead(h);
    ProperFields(h, f);
    hide *;
    EncodedAccepted(f, b);
  }

  lemma ProperFields(h: Fields, f: Frame)
    requires f.header == HeaderOf(h) && h.dataType == 0xA1 && h.length < 0x1_0000
    requires Rows(f.exist, f.counts) && Rows(f.status, f.counts) && |f.counts| <= 16
    requires Num(h.chainNum) == |f.counts| && Num(h.tempNum) == |f.temps| && Num(h.fanNum) == |f.fans|
    requires |Whole(f)| == h.length + 4
    ensures WellFormed(f)
  {
    FieldsRead(h);
    hide Num, LowFirst, HeaderOf, Rows, Whole, Chains, Temps, Fans, LengthField;
  }
}
