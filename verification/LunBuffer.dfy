/** Sector transfers to and from a LUN image (src/BeebSCSI/filesystem.c): a
    64-sector buffer and FatFs's fast-seek mode, in which a file cannot grow, proved
    to read and write the image as if sector by sector. */
module LunBuffer {
  import opened Bytes

  const SECTOR := 256
  const BUFFER_SECTORS := 64

  // ---- images as byte sequences -----------------------------------------------

  /** `n` bytes of an image from `p` on, zeros past its end. */
  function Extent(data: seq<byte>, p: nat, n: nat): (r: seq<byte>)
    ensures |r| == n
  {
    seq(n, i requires 0 <= i < n => if p + i < |data| then data[p + i] else 0)
  }

  /** `data` with `src` written at `p`, growing it if need be. */
  function Overwritten(data: seq<byte>, p: nat, src: seq<byte>): (r: seq<byte>)
    requires p <= |data|
    ensures |r| == if p + |src| <= |data| then |data| else p + |src|
  {
    data[..p] + src + if p + |src| <= |data| then data[p + |src|..] else []
  }

  /** Two adjacent writes are one. */
  lemma OverwrittenTwice(data: seq<byte>, p: nat, a: seq<byte>, b: seq<byte>)
    requires p <= |data|
    ensures Overwritten(Overwritten(data, p, a), p + |a|, b) == Overwritten(data, p, a + b)
  {
  }

  /** Reading back: what was written, and everything else as it was. */
  lemma ReadBack(data: seq<byte>, p: nat, src: seq<byte>, q: nat, n: nat)
    requires p <= |data|
    ensures p <= q && q + n <= p + |src| ==> Extent(Overwritten(data, p, src), q, n) == src[q - p..q - p + n]
    ensures q + n <= p || p + |src| <= q ==> Extent(Overwritten(data, p, src), q, n) == Extent(data, q, n)
  {
    var r := Extent(Overwritten(data, p, src), q, n);
    if p <= q && q + n <= p + |src| {
      forall i | 0 <= i < n ensures r[i] == src[q - p..q - p + n][i] {
        OverwrittenAt(data, p, src, q + i);
      }
    }
    if q + n <= p || p + |src| <= q {
      forall i | 0 <= i < n ensures r[i] == Extent(data, q, n)[i] {
        OverwrittenAt(data, p, src, q + i);
      }
    }
  }

  lemma OverwrittenAt(data: seq<byte>, p: nat, src: seq<byte>, i: nat)
    requires p <= |data|
    ensures var r := Overwritten(data, p, src);
            if p <= i < p + |src| then r[i] == src[i - p]
            else (i < |r| <==> i < |data|) && (i < |r| ==> r[i] == data[i])
  {
  }

  lemma ExtentConcat(data: seq<byte>, p: nat, m: nat, n: nat)
    ensures Extent(data, p, m) + Extent(data, p + m, n) == Extent(data, p, m + n)
  {
  }

  lemma ExtentSlice(data: seq<byte>, p: nat, n: nat, i: nat, m: nat)
    requires i + m <= n
    ensures Extent(data, p, n)[i..i + m] == Extent(data, p + i, m)
  {
  }

  /** What stands at `x` of a buffer, taken one sector at a time. */
  lemma HeadAndRest(b: seq<byte>, data: seq<byte>, x: nat, p: nat, n: nat)
    requires SECTOR <= n && x + n <= |b| && b[x..x + n] == Extent(data, p, n)
    ensures b[x..x + SECTOR] == Extent(data, p, SECTOR)
    ensures b[x + SECTOR..x + n] == Extent(data, p + SECTOR, n - SECTOR)
  {
    hide Extent;
    ExtentSlice(data, p, n, 0, SECTOR);
    ExtentSlice(data, p, n, SECTOR, n - SECTOR);
    assert b[x..x + SECTOR] == b[x..x + n][0..SECTOR];
    assert b[x + SECTOR..x + n] == b[x..x + n][SECTOR..n];
  }

  /** A short read, filled up with zeros, is what the image holds and zeros past it. */
  lemma ShortRead(b: seq<byte>, data: seq<byte>, p: nat, m: nat, n: nat)
    requires m <= |b| && n == Min(m, |data| - Min(|data|, p))
    requires b[..n] == data[Min(|data|, p)..Min(|data|, p) + n] && forall i :: n <= i < m ==> b[i] == 0
    ensures b[0..m] == Extent(data, p, m)
  {
    assert forall i :: 0 <= i < n ==> b[i] == b[..n][i];
  }

  // ---- FatFs --------------------------------------------------------------------

  /** An open file. `mapped` is the end of the cluster chain fast-seek mode knows
      of, absent in slow mode; `room` is how far the card lets the file grow. */
  class File {
    var data: seq<byte>
    var pos: nat
    var mapped: Option<nat>
    const room: nat

    ghost predicate Valid()
      reads this
    {
      pos <= |data| <= room && (mapped.Some? ==> |data| <= mapped.value <= room)
    }

    constructor (contents: seq<byte>, capacity: nat)
      requires |contents| <= capacity
      ensures Valid() && data == contents && room == capacity && mapped == None
    {
      data, pos, mapped, room := contents, 0, None, capacity;
    }

    /** Fast seek clips at the end of the file; slow seek extends the file as far as
        the card allows, with whatever bytes the new clusters hold. */
    method Seek(ofs: nat)
      requires Valid()
      modifies this`pos, this`data
      ensures Valid() && |old(data)| <= |data| && data[..|old(data)|] == old(data)
      ensures |data| == if mapped.Some? || ofs <= |old(data)| then |old(data)| else Min(ofs, room)
      ensures pos == if mapped.Some? then Min(ofs, |data|) else Min(ofs, room)
    {
      if mapped.None? && ofs > |data| {
        var gap := new byte[Min(ofs, room) - |data|];
        data := data + gap[..];
      }
      pos := Min(ofs, |data|);
    }

    method Read(dst: array<byte>, len: nat) returns (n: nat)
      requires Valid() && len <= dst.Length
      modifies this`pos, dst
      ensures Valid() && n == Min(len, |data| - old(pos)) && pos == old(pos) + n
      ensures dst[..n] == data[old(pos)..pos]
    {
      n := Min(len, |data| - pos);
      forall i | 0 <= i < n {
        dst[i] := data[pos + i];
      }
      pos := pos + n;
    }

    /** Writes stop, without an error, where the file cannot grow further. */
    method Write(src: array<byte>, from: nat, len: nat) returns (n: nat)
      requires Valid() && from + len <= src.Length
      modifies this`pos, this`data
      ensures Valid() && pos == old(pos) + n
      ensures n == Min(len, (if mapped.Some? then mapped.value else room) - old(pos))
      ensures data == Overwritten(old(data), old(pos), src[from..from + n])
    {
      n := Min(len, (if mapped.Some? then mapped.value else room) - pos);
      data := Overwritten(data, pos, src[from..from + n]);
      pos := pos + n;
    }

    /** Rebuilds the cluster map, or drops it when the file is too fragmented. */
    method LinkMap(limit: Option<nat>)
      requires Valid()
      modifies this`mapped
      ensures Valid()
    {
      mapped := if limit.Some? && |data| <= limit.value <= room then limit else None;
    }
  }

  // ---- transfers ------------------------------------------------------------------

  /** The byte offset of a sector, as the firmware computes it in 32 bits. */
  function Offset(start: u32): nat {
    start * SECTOR % U32_SIZE
  }

  /** A sector begins 256 bytes after the one before it, as long as the offset fits in 32
      bits: for every sector an image of up to 4 GB can have. */
  lemma SectorBegins(start: u32)
    ensures Offset(start) == 256 * start <==> start < 0x100_0000
  {
    if start >= 0x100_0000 {
      assert 256 * start >= U32_SIZE;
    }
  }

  class Lun {
    const number: nat
    const file: File
    const buffer: array<byte>
    var inBuffer: nat
    var current: nat
    var remaining: nat

    // the transfer under way
    ghost var at: nat                   // where it began
    ghost var total: nat                // sectors asked for
    ghost var k: nat                    // sectors done so far
    ghost var text: seq<byte>           // what the host has written
    ghost var before: seq<byte>         // the image it is writing to

    ghost predicate Valid()
      reads this, file
    {
      file.Valid() && buffer.Length == SECTOR * BUFFER_SECTORS
    }

    constructor (n: nat, f: File)
      requires f.Valid()
      ensures Valid() && number == n && file == f && fresh(buffer)
    {
      number, file, buffer := n, f, new byte[SECTOR * BUFFER_SECTORS];
      inBuffer, current, remaining := 0, 0, 0;
      at, total, k, text, before := 0, 0, 0, [], [];
    }

    /** A read is under way: what is buffered is what comes next in the image. */
    ghost predicate Reading()
      reads this, file, buffer
    {
      && Valid() && k + inBuffer + remaining == total && current + inBuffer <= BUFFER_SECTORS
      && file.pos == Min(|file.data|, at + SECTOR * (k + inBuffer))
      && buffer[SECTOR * current..SECTOR * (current + inBuffer)]
         == Extent(file.data, at + SECTOR * k, SECTOR * inBuffer)
    }

    method OpenForRead(start: u32, n: nat)
      requires Valid()
      modifies this, file`pos, file`data
      ensures Reading() && file.data == old(file.data) && at == Offset(start) && total == n && k == 0
    {
      var p := Offset(start);
      file.Seek(Min(p, |file.data|));
      assert file.data == old(file.data)[..|file.data|];
      remaining, inBuffer, current := n, 0, 0;
      at, total, k := p, n, 0;
    }

    /** Reads `len` bytes, from byte `p` of the image on, with zeros past its end. */
    method Fill(len: nat, ghost p: nat)
      requires file.Valid() && len <= buffer.Length && file.pos == Min(|file.data|, p)
      modifies file`pos, buffer
      ensures file.Valid() && file.pos == Min(|file.data|, p + len) && buffer[0..len] == Extent(file.data, p, len)
    {
      hide Extent;
      var n := file.Read(buffer, len);
      ghost var got := buffer[..n];
      forall i | n <= i < len {
        buffer[i] := 0;
      }
      assert buffer[..n] == got;
      ShortRead(buffer[..], file.data, p, len, n);
    }

    /** Refills the empty buffer; `ok` is whether the card could be read. */
    method Refill(ok: bool) returns (r: bool)
      requires Reading() && inBuffer == 0
      modifies this`inBuffer, this`current, this`remaining, file`pos, buffer
      ensures r == ok && (r ==> Reading() && (old(remaining) > 0 ==> inBuffer > 0))
    {
      if !ok {
        return false;
      }
      hide Extent;
      var want := Min(remaining, BUFFER_SECTORS);
      Fill(SECTOR * want, at + SECTOR * k);
      inBuffer, current, remaining := want, 0, remaining - want;
      return true;
    }

    /** Takes the next buffered sector. */
    method TakeSector() returns (sector: seq<byte>)
      requires Reading() && inBuffer > 0
      modifies this`inBuffer, this`current, this`k
      ensures Reading() && k == old(k) + 1 && sector == Extent(file.data, at + SECTOR * old(k), SECTOR)
    {
      hide Extent;
      HeadAndRest(buffer[..], file.data, SECTOR * current, at + SECTOR * k, SECTOR * inBuffer);
      sector := buffer[SECTOR * current..SECTOR * (current + 1)];
      current, inBuffer, k := current + 1, inBuffer - 1, k + 1;
    }

    /** The next sector of the image. */
    method ReadNext(ok: bool) returns (r: bool, sector: seq<byte>)
      requires Reading() && k < total
      modifies this`inBuffer, this`current, this`remaining, this`k, file`pos, buffer
      ensures r ==> Reading() && k == old(k) + 1 && sector == Extent(file.data, at + SECTOR * old(k), SECTOR)
      ensures r == (ok || old(inBuffer) > 0)
    {
      hide Extent;
      if inBuffer == 0 {
        r := Refill(ok);
        if !r {
          return false, [];
        }
      }
      sector := TakeSector();
      r := true;
    }

    /** A whole read command: the image's sectors, zeros past its end. */
    method ReadSectors(start: u32, n: nat) returns (r: seq<byte>)
      requires Valid()
      modifies this, file`pos, file`data, buffer
      ensures Valid() && file.data == old(file.data) && r == Extent(file.data, Offset(start), SECTOR * n)
    {
      OpenForRead(start, n);
      r := [];
      var i := 0;
      while i < n
        invariant i <= n && Reading() && k == i && total == n && at == Offset(start) && file.data == old(file.data)
        invariant r == Extent(file.data, at, SECTOR * i)
      {
        var ok, sector := ReadNext(true);
        ExtentConcat(file.data, at, SECTOR * i, SECTOR);
        r := r + sector;
        i := i + 1;
      }
    }

    /** The image is as it was opened, with what has reached the file of the
        sectors handed over. */
    ghost predicate Landed()
      reads this, file
    {
      && file.Valid() && at <= |before| && at <= file.pos <= at + |text|
      && file.data == Overwritten(before, at, text[..file.pos - at])
    }

    /** A write is under way: what has not reached the file is in the buffer. */
    ghost predicate Writing()
      reads this, file, buffer
    {
      && Valid() && Landed() && current <= BUFFER_SECTORS && current <= k <= total
      && |text| == SECTOR * k && file.pos == at + SECTOR * (k - current) && remaining == total - (k - current)
      && buffer[..SECTOR * current] == text[SECTOR * (k - current)..]
    }

    /** Fast seek cannot reach past the end of the file: extends it with the map off,
        then maps it again. */
    method Grow(p: nat, limit: Option<nat>) returns (ok: bool)
      requires file.Valid()
      modifies file
      ensures file.Valid() && |old(file.data)| <= |file.data| && file.data[..|old(file.data)|] == old(file.data)
      ensures if old(file.mapped).Some? && p > |old(file.data)|
              then ok == (p <= file.room) && |file.data| == Min(p, file.room)
              else ok && file.data == old(file.data) && file.mapped == old(file.mapped)
    {
      ok := true;
      assert file.data[..|file.data|] == file.data;
      if file.mapped.Some? && p > |file.data| {
        file.mapped := None;
        file.Seek(p);
        file.LinkMap(limit);
        ok := file.pos == p;
      }
    }

    /** Opens for writing, extending an image that ends before the first sector as far
        as the card allows. `limit` is what mapping the file's clusters again
        gives. The read-only LUNs above 7 are refused. */
    method OpenForWrite(start: u32, n: nat, limit: Option<nat>) returns (ok: bool)
      requires Valid()
      modifies this, file
      ensures Valid() && (number <= 7 && Offset(start) <= file.room ==> ok) && (ok ==> number <= 7)
      ensures |old(file.data)| <= |file.data| && file.data[..|old(file.data)|] == old(file.data)
      ensures number > 7 || Offset(start) <= |old(file.data)| ==> file.data == old(file.data)
      ensures ok ==> Writing() && at == Min(Offset(start), file.room) && total == n && k == 0 && before == file.data
      ensures ok && |old(file.data)| < at ==> |before| == at
      ensures number <= 7 ==> Min(Offset(start), file.room) <= |file.data|
    {
      hide Overwritten;
      if number > 7 {
        return false;
      }
      var p := Offset(start);
      ok := Grow(p, limit);
      if !ok {
        return;
      }
      ghost var was := file.data;
      file.Seek(p);
      assert file.data[..|old(file.data)|] == file.data[..|was|][..|old(file.data)|];
      assert |file.data| == |was| ==> file.data == file.data[..|was|];
      remaining, current := n, 0;
      at, total, k, text, before := file.pos, n, 0, [], file.data;
      OverwrittenNothing(before, at);
      return true;
    }

    /** Writes `len` bytes of the buffer to the file. In fast-seek mode the file
        cannot grow: the rest is written with the map off, and the map rebuilt. */
    method WriteOut(len: nat, limit: Option<nat>) returns (n: nat)
      requires Valid() && len <= buffer.Length
      modifies file
      ensures Valid() && n == Min(len, file.room - old(file.pos)) && file.pos == old(file.pos) + n
      ensures file.data == Overwritten(old(file.data), old(file.pos), buffer[..n])
    {
      hide Overwritten;
      n := file.Write(buffer, 0, len);
      if n != len && file.mapped.Some? {
        file.mapped := None;
        var more := file.Write(buffer, n, len - n);
        OverwrittenTwice(old(file.data), old(file.pos), buffer[..n], buffer[n..n + more]);
        assert buffer[..n] + buffer[n..n + more] == buffer[..n + more];
        n := n + more;
        file.LinkMap(limit);
      }
    }

    /** Empties the buffer into the file. */
    method Flush(limit: Option<nat>) returns (ok: bool)
      requires Writing() && current > 0
      modifies this`current, this`remaining, file
      ensures Landed() && Valid() && ok == (at + SECTOR * k <= file.room)
      ensures ok ==> Writing() && current == 0
    {
      hide Overwritten;
      ghost var m := SECTOR * (k - current);
      var len := SECTOR * current;
      var n := WriteOut(len, limit);
      OverwrittenTwice(before, at, text[..m], buffer[..n]);
      assert text[..m] + buffer[..n] == text[..m + n];
      if n != len {
        return false;
      }
      remaining := remaining - current;
      current := 0;
      return true;
    }

    /** Adds a sector to the buffer. */
    method Buffer(sector: seq<byte>)
      requires Writing() && |sector| == SECTOR && current < BUFFER_SECTORS && k < total
      modifies this`current, this`k, this`text, buffer
      ensures Writing() && current == old(current) + 1 && k == old(k) + 1 && text == old(text) + sector
    {
      hide Overwritten;
      ghost var b, t, m := buffer[..SECTOR * current], text, SECTOR * (k - current);
      forall i | 0 <= i < SECTOR {
        buffer[SECTOR * current + i] := sector[i];
      }
      assert buffer[..SECTOR * (current + 1)] == b + sector;
      assert (t + sector)[m..] == t[m..] + sector && (t + sector)[..m] == t[..m];
      current, k, text := current + 1, k + 1, text + sector;
    }

    /** Takes the host's next sector; under write protection it is swallowed. */
    method WriteNext(sector: seq<byte>, protected: bool, limit: Option<nat>) returns (ok: bool)
      requires Writing() && |sector| == SECTOR && current < BUFFER_SECTORS && k < total
      modifies this`current, this`remaining, this`k, this`text, file, buffer
      ensures Valid() && Landed() && at == old(at)
      ensures protected ==> ok && Writing() && k == old(k) && text == old(text) && file.data == old(file.data)
      ensures !protected ==> k == old(k) + 1 && text == old(text) + sector
      ensures ok ==> Writing() && current < BUFFER_SECTORS
      ensures ok && k == total ==> current == 0
      ensures !protected && at + SECTOR * total <= file.room ==> ok
    {
      if protected {
        return true;
      }
      hide Overwritten;
      Buffer(sector);
      if current == BUFFER_SECTORS || current == remaining {
        ok := Flush(limit);
      } else {
        ok := true;
      }
    }

    /** Hands over sector after sector, until one fails. */
    method WriteAll(sectors: seq<byte>, protected: bool, limits: seq<Option<nat>>) returns (ok: bool)
      requires Writing() && k == 0 && current == 0 && |sectors| == SECTOR * total && sectors != []
      modifies this`current, this`remaining, this`k, this`text, file, buffer
      ensures Valid() && Reaches(file.data, before, at, sectors)
      ensures protected ==> ok && file.data == old(file.data)
      ensures !protected ==> ok == (at + |sectors| <= file.room)
      ensures !protected && ok ==> file.data == Overwritten(before, at, sectors)
    {
      hide Overwritten, Reaches;
      ok := true;
      assert sectors[..0] == [] && text == [];
      var n := |sectors| / SECTOR;
      var i := 0;
      while i < n
        invariant 0 <= i <= n && Writing() && current < BUFFER_SECTORS && (k == total ==> current == 0)
        invariant if protected then k == 0 && text == [] && file.data == old(file.data)
                  else k == i && text == sectors[..SECTOR * i]
      {
        var sector := sectors[SECTOR * i..SECTOR * (i + 1)];
        assert sectors[..SECTOR * i] + sector == sectors[..SECTOR * (i + 1)];
        ok := WriteNext(sector, protected, if i + 1 < |limits| then limits[i + 1] else None);
        if !ok {
          ReachesBy(file.data, before, at, text, sectors, file.pos - at);
          return;
        }
        i := i + 1;
      }
      assert sectors[..SECTOR * n] == sectors;
      ReachesBy(file.data, before, at, text, sectors, file.pos - at);
      assert text[..|text|] == text;
    }

    /** A whole write command of `|sectors| / 256` sectors. It succeeds exactly when the
        LUN is writable and the card has room; the image is then patched with exactly
        those sectors. `grown` is the image with the gap, if any, that opening it left:
        write protection swallows the sectors but not the gap. */
    method WriteSectors(start: u32, sectors: seq<byte>, protected: bool, limits: seq<Option<nat>>)
      returns (ok: bool, ghost grown: seq<byte>)
      requires Valid() && sectors != [] && |sectors| % SECTOR == 0
      modifies this, file, buffer
      ensures Valid() && |old(file.data)| <= |grown| && grown[..|old(file.data)|] == old(file.data)
      ensures number > 7 || Offset(start) <= |old(file.data)| ==> grown == old(file.data)
      ensures number > 7 ==> !ok && file.data == grown
      ensures number <= 7 ==> Reaches(file.data, grown, Min(Offset(start), file.room), sectors)
      ensures protected ==> file.data == grown
      ensures protected ==>
                (file.data == old(file.data) <==>
                 number > 7 || Offset(start) <= |old(file.data)| || file.room == |old(file.data)|)
      ensures !protected ==> ok == (number <= 7 && Offset(start) + |sectors| <= file.room)
      ensures ok && !protected ==> |grown| == (if |old(file.data)| < Offset(start) then Offset(start)
                                               else |old(file.data)|)
      ensures ok && !protected ==> file.data == Overwritten(grown, Offset(start), sectors)
    {
      hide Overwritten;
      var n := |sectors| / SECTOR;
      assert sectors[..0] == [];
      ok := OpenForWrite(start, n, if limits == [] then None else limits[0]);
      grown := file.data;
      if number <= 7 {
        OverwrittenNothing(grown, Min(Offset(start), file.room));
      }
      if !ok {
        return;
      }
      ok := WriteAll(sectors, protected, limits);
    }
  }

  /** `data` is `base` with some first part of `src` written at `p`. */
  ghost predicate Reaches(data: seq<byte>, base: seq<byte>, p: nat, src: seq<byte>) {
    p <= |base| && exists m :: 0 <= m <= |src| && data == Overwritten(base, p, src[..m])
  }

  lemma ReachesBy(data: seq<byte>, base: seq<byte>, p: nat, text: seq<byte>, src: seq<byte>, m: nat)
    requires p <= |base| && text <= src && m <= |text| && data == Overwritten(base, p, text[..m])
    ensures Reaches(data, base, p, src)
  {
    assert text[..m] == src[..m];
  }

  lemma OverwrittenNothing(data: seq<byte>, p: nat)
    requires p <= |data|
    ensures Overwritten(data, p, []) == data
  {
  }
}
