/**
 * The reader for one time step of the simulation output: an unformatted
 * Fortran file, where every write is a record framed by its byte length
 * before and after. The header holds the particle count and the physical
 * time; each particle then has seven records (position, velocity,
 * quaternion, three axes, number of Lagrangian points). Also the loader
 * that picks the files of a time range.
 */
module F90Reader {
  import opened Vectors
  import opened Quaternions
  import opened Text

  /** Decoders of little-endian fields, left abstract: a double from 8 bytes, an int from 4. */
  datatype Decoders = Decoders(f64: seq<bv8> -> real, i32: seq<bv8> -> int)

  const MarkerSize: nat := 4
  /** Count record (4 + 4 + 4) and time record (4 + 8 + 4). */
  const HeaderSize: nat := 28
  /** Position 32, velocity 32, quaternion 40, three axes 3 * 16, Lagrangian points 12. */
  const ParticleSize: nat := 164

  function FileSize(n: nat): nat {
    HeaderSize + ParticleSize * n
  }

  datatype Particle = Particle(pos: Vec3, vel: Vec3, q: Quat, a: real, b: real, c: real, lagrangian: int)

  datatype Frame = Frame(count: int, time: real, particles: seq<Particle>)

  /** The double stored at byte offset `o`. */
  function F64At(bytes: seq<bv8>, o: nat, dec: Decoders): real
    requires o + 8 <= |bytes|
  {
    dec.f64(bytes[o..o + 8])
  }

  /** The record of three doubles starting at byte `s`. */
  function VecAt(bytes: seq<bv8>, s: nat, dec: Decoders): Vec3
    requires s + 32 <= |bytes|
  {
    Vec3(F64At(bytes, s + 4, dec), F64At(bytes, s + 12, dec), F64At(bytes, s + 20, dec))
  }

  /** The record of four doubles starting at byte `s`. */
  function QuatAt(bytes: seq<bv8>, s: nat, dec: Decoders): Quat
    requires s + 40 <= |bytes|
  {
    Quat(F64At(bytes, s + 4, dec), F64At(bytes, s + 12, dec), F64At(bytes, s + 20, dec), F64At(bytes, s + 28, dec))
  }

  /** The record of one 32-bit integer starting at byte `s`. */
  function IntAt(bytes: seq<bv8>, s: nat, dec: Decoders): int
    requires s + 12 <= |bytes|
  {
    dec.i32(bytes[s + 4..s + 8])
  }

  /**
   * The particle whose records start at byte `s`: each value sits behind
   * its record's leading length marker.
   */
  function ParticleAt(bytes: seq<bv8>, s: nat, dec: Decoders): Particle
    requires s + ParticleSize <= |bytes|
  {
    Particle(VecAt(bytes, s, dec), VecAt(bytes, s + 32, dec), QuatAt(bytes, s + 64, dec),
             F64At(bytes, s + 108, dec), F64At(bytes, s + 124, dec), F64At(bytes, s + 140, dec),
             IntAt(bytes, s + 152, dec))
  }

  /** The frame a file of exactly the expected size holds. */
  function FrameOf(bytes: seq<bv8>, n: nat, dec: Decoders): Frame
    requires |bytes| == FileSize(n)
  {
    Frame(dec.i32(bytes[4..8]), F64At(bytes, 16, dec),
          ParticlesRead(bytes, n, dec))
  }

  /** The first `n` particles behind the header. */
  function ParticlesRead(bytes: seq<bv8>, n: nat, dec: Decoders): (ps: seq<Particle>)
    requires FileSize(n) <= |bytes|
    ensures |ps| == n
  {
    seq(n, i requires 0 <= i < n => ParticleAt(bytes, HeaderSize + ParticleSize * i, dec))
  }

  /** One more particle read. */
  lemma ParticlesReadSnoc(bytes: seq<bv8>, n: nat, dec: Decoders)
    requires FileSize(n + 1) <= |bytes|
    ensures ParticlesRead(bytes, n + 1, dec) == ParticlesRead(bytes, n, dec) + [ParticleAt(bytes, FileSize(n), dec)]
  {
    var r, r' := ParticlesRead(bytes, n, dec), ParticlesRead(bytes, n + 1, dec);
    forall i | 0 <= i < n
      ensures r'[i] == r[i]
    {
    }
    assert r' == r + [r'[n]];
  }

  /** An input stream over the file's bytes, with its read position and fail state. */
  class Stream {
    const bytes: seq<bv8>
    var pos: nat
    var failed: bool

    constructor (b: seq<bv8>)
      ensures bytes == b && pos == 0 && !failed
    {
      bytes := b;
      pos := 0;
      failed := false;
    }

    /** `tellg`: -1 once the stream has failed. */
    function Tellg(): int
      reads this
    {
      if failed then -1 else pos
    }

    /** `binary_read` of `k` bytes: a read past the end fails the stream, and a failed stream reads nothing. */
    method Read(k: nat) returns (field: seq<bv8>)
      modifies this
      ensures old(!failed && pos + k <= |bytes|) ==> !failed && pos == old(pos) + k && field == bytes[old(pos)..old(pos) + k]
      ensures !old(!failed && pos + k <= |bytes|) ==> failed
    {
      if !failed && pos + k <= |bytes| {
        field := bytes[pos..pos + k];
        pos := pos + k;
      } else {
        field := [];
        failed := true;
      }
    }

    /** A record holding one double: marker, value, marker. */
    method ReadScalarRecord(dec: Decoders) returns (v: real)
      modifies this
      ensures old(!failed && pos + 16 <= |bytes|) ==> !failed && pos == old(pos) + 16 && v == F64At(bytes, old(pos) + 4, dec)
      ensures !old(!failed && pos + 16 <= |bytes|) ==> failed
    {
      var _ := Read(MarkerSize);
      var f := Read(8);
      v := dec.f64(f);
      var _ := Read(MarkerSize);
    }

    /** A record holding three doubles. */
    method ReadVecRecord(dec: Decoders) returns (v: Vec3)
      modifies this
      ensures old(!failed && pos + 32 <= |bytes|) ==> !failed && pos == old(pos) + 32 && v == VecAt(bytes, old(pos), dec)
      ensures !old(!failed && pos + 32 <= |bytes|) ==> failed
    {
      var _ := Read(MarkerSize);
      var x := Read(8);
      var y := Read(8);
      var z := Read(8);
      v := Vec3(dec.f64(x), dec.f64(y), dec.f64(z));
      var _ := Read(MarkerSize);
    }

    /** A record holding four doubles, the quaternion in (i, j, k, real) order. */
    method ReadQuatRecord(dec: Decoders) returns (q: Quat)
      modifies this
      ensures old(!failed && pos + 40 <= |bytes|) ==> !failed && pos == old(pos) + 40 && q == QuatAt(bytes, old(pos), dec)
      ensures !old(!failed && pos + 40 <= |bytes|) ==> failed
    {
      var _ := Read(MarkerSize);
      var x := Read(8);
      var y := Read(8);
      var z := Read(8);
      var w := Read(8);
      q := Quat(dec.f64(x), dec.f64(y), dec.f64(z), dec.f64(w));
      var _ := Read(MarkerSize);
    }

    /** A record holding one 32-bit integer. */
    method ReadIntRecord(dec: Decoders) returns (v: int)
      modifies this
      ensures old(!failed && pos + 12 <= |bytes|) ==> !failed && pos == old(pos) + 12 && v == IntAt(bytes, old(pos), dec)
      ensures !old(!failed && pos + 12 <= |bytes|) ==> failed
    {
      var _ := Read(MarkerSize);
      var f := Read(4);
      v := dec.i32(f);
      var _ := Read(MarkerSize);
    }

    /** The first three records of a particle: position, velocity, orientation. */
    method ReadMotion(dec: Decoders) returns (x: Vec3, u: Vec3, q: Quat)
      modifies this
      ensures old(!failed && pos + 104 <= |bytes|) ==>
        !failed && pos == old(pos) + 104 &&
        x == VecAt(bytes, old(pos), dec) && u == VecAt(bytes, old(pos) + 32, dec) &&
        q == QuatAt(bytes, old(pos) + 64, dec)
      ensures !old(!failed && pos + 104 <= |bytes|) ==> failed
    {
      x := ReadVecRecord(dec);
      u := ReadVecRecord(dec);
      q := ReadQuatRecord(dec);
    }

    /** The last four records of a particle: the three semi-axes and the Lagrangian count. */
    method ReadShape(dec: Decoders) returns (a: real, b: real, c: real, nl: int)
      modifies this
      ensures old(!failed && pos + 60 <= |bytes|) ==>
        !failed && pos == old(pos) + 60 &&
        a == F64At(bytes, old(pos) + 4, dec) && b == F64At(bytes, old(pos) + 20, dec) &&
        c == F64At(bytes, old(pos) + 36, dec) && nl == IntAt(bytes, old(pos) + 48, dec)
      ensures !old(!failed && pos + 60 <= |bytes|) ==> failed
    {
      a := ReadScalarRecord(dec);
      b := ReadScalarRecord(dec);
      c := ReadScalarRecord(dec);
      nl := ReadIntRecord(dec);
    }

    /** The seven records of one particle. */
    method ReadParticle(dec: Decoders) returns (p: Particle)
      modifies this
      ensures old(!failed && pos + ParticleSize <= |bytes|) ==>
        !failed && pos == old(pos) + ParticleSize &&
        p == ParticleAt(bytes, old(pos), dec)
      ensures !old(!failed && pos + ParticleSize <= |bytes|) ==> failed
    {
      var x, u, q := ReadMotion(dec);
      var a, b, c, nl := ReadShape(dec);
      p := Particle(x, u, q, a, b, c, nl);
    }
  }

  /**
   * `read_f90_file`: reads the header and `n` particles, where `n` is the
   * caller's count (the file's own count is read but not used), and succeeds
   * iff the file opened and the reads ended exactly at its end. The record
   * markers are never checked.
   */
  method ReadF90File(file: Option<seq<bv8>>, n: nat, dec: Decoders) returns (ok: bool, frame: Frame)
    ensures ok <==> file.Some? && |file.value| == FileSize(n)
    ensures ok ==> frame == FrameOf(file.value, n, dec)
  {
    if file.None? {
      return false, Frame(0, 0.0, []);
    }
    var s := new Stream(file.value);
    var count := s.ReadIntRecord(dec);
    var time := s.ReadScalarRecord(dec);
    var particles: seq<Particle> := [];
    var i := 0;
    while i < n
      invariant 0 <= i <= n && |particles| == i
      invariant !s.failed ==> s.pos == FileSize(i) <= |s.bytes|
      invariant s.failed ==> |s.bytes| < FileSize(n)
      invariant !s.failed ==> particles == ParticlesRead(s.bytes, i, dec)
    {
      var p := s.ReadParticle(dec);
      if !s.failed {
        ParticlesReadSnoc(s.bytes, i, dec);
      }
      particles := particles + [p];
      i := i + 1;
    }
    ok := s.Tellg() == |s.bytes|;
    frame := Frame(count, time, particles);
  }

  /** The particle count follows from the file length. */
  lemma FileSizeInjective(m: nat, n: nat)
    requires FileSize(m) == FileSize(n)
    ensures m == n
  {
  }

  /** Every particle's seven records fit in its 164 bytes, in order, after the 28 header bytes. */
  lemma ParticlesInFile(n: nat, i: nat)
    requires i < n
    ensures HeaderSize <= HeaderSize + ParticleSize * i
    ensures HeaderSize + ParticleSize * i + ParticleSize <= FileSize(n)
  {
    assert ParticleSize * i + ParticleSize == ParticleSize * (i + 1);
    assert ParticleSize * (i + 1) <= ParticleSize * n;
  }

  /**
   * The file's own particle count does not affect what is read: two files
   * that differ only in the count field give the same time and particles.
   */
  lemma CountIgnored(b1: seq<bv8>, b2: seq<bv8>, n: nat, dec: Decoders)
    requires |b1| == |b2| == FileSize(n)
    requires b1[..4] == b2[..4] && b1[8..] == b2[8..]
    ensures FrameOf(b1, n, dec).time == FrameOf(b2, n, dec).time
    ensures FrameOf(b1, n, dec).particles == FrameOf(b2, n, dec).particles
  {
    var r1, r2 := ParticlesRead(b1, n, dec), ParticlesRead(b2, n, dec);
    forall i | 0 <= i < n
      ensures r1[i] == r2[i]
    {
      ParticlesInFile(n, i);
      ParticleAtSame(b1, b2, HeaderSize + ParticleSize * i, dec);
    }
    assert r1 == r2;
    SliceAgree(b1, b2, 16, 8);
  }

  lemma SliceAgree(b1: seq<bv8>, b2: seq<bv8>, o: nat, k: nat)
    requires |b1| == |b2| && 8 <= o && o + k <= |b1| && b1[8..] == b2[8..]
    ensures b1[o..o + k] == b2[o..o + k]
  {
    assert b1[o..o + k] == b1[8..][o - 8..o + k - 8];
    assert b2[o..o + k] == b2[8..][o - 8..o + k - 8];
  }

  lemma ParticleAtSame(b1: seq<bv8>, b2: seq<bv8>, s: nat, dec: Decoders)
    requires |b1| == |b2| && 8 <= s && s + ParticleSize <= |b1| && b1[8..] == b2[8..]
    ensures ParticleAt(b1, s, dec) == ParticleAt(b2, s, dec)
  {
    SliceAgree(b1, b2, s + 4, 8);
    SliceAgree(b1, b2, s + 12, 8);
    SliceAgree(b1, b2, s + 20, 8);
    SliceAgree(b1, b2, s + 36, 8);
    SliceAgree(b1, b2, s + 44, 8);
    SliceAgree(b1, b2, s + 52, 8);
    SliceAgree(b1, b2, s + 68, 8);
    SliceAgree(b1, b2, s + 76, 8);
    SliceAgree(b1, b2, s + 84, 8);
    SliceAgree(b1, b2, s + 92, 8);
    SliceAgree(b1, b2, s + 108, 8);
    SliceAgree(b1, b2, s + 124, 8);
    SliceAgree(b1, b2, s + 140, 8);
    SliceAgree(b1, b2, s + 156, 4);
  }

  // ---------------------------------------------------------------------
  // load

  /** C `%`: the remainder takes the sign of the dividend. */
  function CMod(i: int, m: nat): int
    requires m > 0
  {
    if i >= 0 then i % m else -((-i) % m)
  }

  /**
   * `max_time_steps`: the number of time steps the loader reserves,
   * ceil((end - (start - 1)) / resolution).
   */
  function MaxTimeSteps(start: int, end: int, res: nat): nat
    requires res > 0 && start <= end + 1
  {
    (end - start + 1 + res - 1) / res
  }

  /** The file indices the loader reads as written: i from start - 1 below end, with i % res == 0. */
  function LoadIndicesAsWritten(start: int, end: int, res: nat): seq<int>
    requires res > 0
    decreases end - start
  {
    if start - 1 >= end then []
    else (if CMod(start - 1, res) == 0 then [start - 1] else []) + LoadIndicesAsWritten(start + 1, end, res)
  }

  /**
   * The caller passes the 0-based first file; with the default first file
   * and resolution 1 the loader starts at index -1.
   */
  lemma LoadReadsBeforeFirstFile(end: int)
    requires end >= 0
    ensures |LoadIndicesAsWritten(0, end, 1)| >= 1 && LoadIndicesAsWritten(0, end, 1)[0] == -1
  {
  }

  /**
   * With a resolution above one, the absolute `i % res` test reads fewer
   * files than the slots reserved: from 0 to 4 at resolution 2 it reads
   * two files into three slots.
   */
  lemma LoadMiscountsSlots()
    ensures LoadIndicesAsWritten(0, 4, 2) == [0, 2]
    ensures MaxTimeSteps(0, 4, 2) == 3
  {
    assert CMod(-1, 2) == -1;
    assert LoadIndicesAsWritten(4, 4, 2) == [];
    assert LoadIndicesAsWritten(3, 4, 2) == [2];
    assert LoadIndicesAsWritten(2, 4, 2) == [2];
    assert LoadIndicesAsWritten(1, 4, 2) == [0, 2];
  }

  /** The corrected file indices: every `res`-th file of the 0-based range [start, end]. */
  function LoadIndices(start: nat, end: nat, res: nat): (r: seq<nat>)
    requires res > 0 && start <= end
    ensures |r| == MaxTimeSteps(start, end, res)
  {
    seq(MaxTimeSteps(start, end, res), k => start + k * res)
  }

  /** The k-th slot's file lies in the range exactly when k is below the reserved slot count. */
  lemma SlotInRange(span: nat, res: nat, k: nat)
    requires res > 0
    ensures k * res <= span <==> k < (span + 1 + res - 1) / res
  {
    var m := (span + res) / res;
    var r := (span + res) % res;
    assert m * res + r == span + res;
    if k < m {
      assert (k + 1) * res <= m * res;
    } else {
      assert k * res >= m * res;
    }
  }

  /** The next slot's file is `res` further on. */
  lemma NextSlot(k: nat, res: nat)
    ensures (k + 1) * res == k * res + res
  {
  }

  /** The corrected indices stay within the requested range and start at its first file. */
  lemma LoadIndicesInRange(start: nat, end: nat, res: nat)
    requires res > 0 && start <= end
    ensures forall k :: 0 <= k < |LoadIndices(start, end, res)| ==> start <= LoadIndices(start, end, res)[k] <= end
    ensures |LoadIndices(start, end, res)| >= 1 && LoadIndices(start, end, res)[0] == start
  {
    forall k | 0 <= k < MaxTimeSteps(start, end, res)
      ensures start + k * res <= end
    {
      SlotInRange(end - start, res, k);
    }
    SlotInRange(end - start, res, 0);
  }

  /**
   * `load` with the corrected range: reads every `res`-th file of [start,
   * end] into consecutive time slots. As in the source, the reported
   * success is that of the last file read.
   */
  method Load(files: seq<Option<seq<bv8>>>, start: nat, end: nat, res: nat, n: nat, dec: Decoders)
    returns (success: bool, frames: seq<Frame>)
    requires res > 0 && start <= end < |files|
    ensures |frames| == MaxTimeSteps(start, end, res)
    ensures success <==> Complete(files[LoadIndices(start, end, res)[|frames| - 1]], n)
    ensures forall k :: 0 <= k < |frames| ==> ReadsAs(files[LoadIndices(start, end, res)[k]], n, dec, frames[k])
  {
    LoadIndicesInRange(start, end, res);
    var idx := LoadIndices(start, end, res);
    success := true;
    frames := [];
    var i := start;
    while i <= end
      invariant |frames| <= |idx| && i == start + |frames| * res
      invariant i <= end <==> |frames| < |idx|
      invariant forall k :: 0 <= k < |frames| ==> ReadsAs(files[idx[k]], n, dec, frames[k])
      invariant |frames| > 0 ==> (success <==> Complete(files[idx[|frames| - 1]], n))
      decreases |idx| - |frames|
    {
      assert idx[|frames|] == i;
      var ok, frame := ReadF90File(files[i], n, dec);
      success := ok;
      NextSlot(|frames|, res);
      frames := frames + [frame];
      i := i + res;
      SlotInRange(end - start, res, |frames|);
    }
  }

  /** The file is there and has exactly the size `n` particles take. */
  predicate Complete(f: Option<seq<bv8>>, n: nat) {
    f.Some? && |f.value| == FileSize(n)
  }

  /** A complete file was read into `frame`. */
  predicate ReadsAs(f: Option<seq<bv8>>, n: nat, dec: Decoders, frame: Frame) {
    Complete(f, n) ==> frame == FrameOf(f.value, n, dec)
  }
}
