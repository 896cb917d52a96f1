/** The Acorn DFS disc image builder and catalogue parser (beeb/net/mkssd.py).

    Strings are their latin-1 bytes; a file's name is already upper-cased. */
module DfsImage {
  import opened Bytes

  const SECTOR := 256
  const TOTAL_SECTORS := 800
  const CAT_SECTORS := 2
  const MAX_FILES := 31
  const IMAGE_SIZE := TOTAL_SECTORS * SECTOR
  const SPACE: byte := 32

  datatype DfsFile = DfsFile(name: seq<byte>, dir: byte, locked: bool, data: seq<byte>, load: nat, exec: nat)

  datatype Error = TooManyFiles | DiscFull
  datatype Result<T> = Ok(value: T) | Err(error: Error)

  // ---- placement ----------------------------------------------------------------

  function Sectors(len: nat): nat {
    (len + SECTOR - 1) / SECTOR
  }

  /** As many sectors as a file needs, and no more. */
  lemma SectorsTight(len: nat)
    ensures SECTOR * Sectors(len) >= len && (Sectors(len) > 0 ==> SECTOR * (Sectors(len) - 1) < len)
  {
  }

  /** The first sector of the `i`-th file, and past the last file the first free one. */
  function StartOf(files: seq<DfsFile>, i: nat): (s: nat)
    requires i <= |files|
    ensures s >= CAT_SECTORS
  {
    if i == 0 then CAT_SECTORS else StartOf(files, i - 1) + Sectors(|files[i - 1].data|)
  }

  predicate Fits(files: seq<DfsFile>) {
    StartOf(files, |files|) <= TOTAL_SECTORS
  }

  lemma {:induction false} StartsRise(files: seq<DfsFile>, i: nat, j: nat)
    requires i <= j <= |files|
    ensures StartOf(files, i) <= StartOf(files, j)
    ensures i < j ==> StartOf(files, i) * SECTOR + |files[i].data| <= StartOf(files, j) * SECTOR
    decreases j
  {
    if i < j {
      StartsRise(files, i, j - 1);
    }
  }

  /** Files lie clear of the catalogue, inside the disc, and clear of one another. */
  lemma RegionsDisjoint(files: seq<DfsFile>, i: nat, j: nat)
    requires Fits(files) && i < j < |files|
    ensures CAT_SECTORS * SECTOR <= StartOf(files, i) * SECTOR
    ensures StartOf(files, i) * SECTOR + |files[i].data| <= StartOf(files, j) * SECTOR
    ensures StartOf(files, j) * SECTOR + |files[j].data| <= IMAGE_SIZE
  {
    StartsRise(files, i, j);
    StartsRise(files, j, |files|);
  }

  // ---- catalogue order ------------------------------------------------------------

  /** Entry `a` is listed before `b`: it starts later on the disc, or at the same
      sector and was given first (an empty file shares its sector with the next). */
  predicate Before(starts: seq<nat>, a: nat, b: nat)
    requires a < |starts| && b < |starts|
  {
    starts[a] > starts[b] || (starts[a] == starts[b] && a < b)
  }

  ghost predicate Covers(order: seq<nat>, n: nat) {
    forall x: nat :: x < n ==> x in order
  }

  ghost predicate Falling(starts: seq<nat>, order: seq<nat>) {
    && (forall i :: 0 <= i < |order| ==> order[i] < |starts|)
    && (forall i, j :: 0 <= i < j < |order| ==> Before(starts, order[i], order[j]))
  }

  /** `order` lists the first `n` entries, each once, in catalogue order. */
  ghost predicate Ordered(starts: seq<nat>, n: nat, order: seq<nat>) {
    && n <= |starts| && |order| == n && (forall i :: 0 <= i < n ==> order[i] < n)
    && Covers(order, n) && Falling(starts, order)
  }

  lemma InsertCovers(order: seq<nat>, n: nat, p: nat)
    requires Covers(order, n) && p <= |order|
    ensures Covers(order[..p] + [n] + order[p..], n + 1)
  {
    var order' := order[..p] + [n] + order[p..];
    forall x: nat | x < n + 1 ensures x in order' {
      if x < n {
        assert x in order;
        assert order == order[..p] + order[p..];
      }
    }
  }

  /** Placing entry `n` after every listed one that does not start before it. */
  lemma InsertFalls(starts: seq<nat>, n: nat, order: seq<nat>, p: nat)
    requires n < |starts| && Falling(starts, order) && p <= |order| && (forall i :: 0 <= i < |order| ==> order[i] < n)
    requires forall i :: 0 <= i < p ==> starts[order[i]] >= starts[n]
    requires p < |order| ==> starts[order[p]] < starts[n]
    ensures Falling(starts, order[..p] + [n] + order[p..])
  {
    var order' := order[..p] + [n] + order[p..];
    assert forall i :: 0 <= i < p ==> order'[i] == order[i];
    assert order'[p] == n;
    assert forall i :: p < i < |order'| ==> order'[i] == order[i - 1];
    forall i | p <= i < |order| ensures starts[order[i]] < starts[n] {
      if i > p {
        assert Before(starts, order[p], order[i]);
      }
    }
  }

  /** The builder's stable sort, latest start first. */
  method SortDescending(starts: seq<nat>) returns (order: seq<nat>)
    ensures Ordered(starts, |starts|, order)
  {
    order := [];
    for n := 0 to |starts|
      invariant Ordered(starts, n, order)
    {
      var p := 0;
      while p < n && starts[order[p]] >= starts[n]
        invariant 0 <= p <= n && forall i :: 0 <= i < p ==> starts[order[i]] >= starts[n]
      {
        p := p + 1;
      }
      InsertFalls(starts, n, order, p);
      InsertCovers(order, n, p);
      hide Covers, Falling;
      order := order[..p] + [n] + order[p..];
    }
  }

  // ---- fields -----------------------------------------------------------------------

  /** Python's `str.isspace` on latin-1. */
  predicate IsSpace(b: byte) {
    9 <= b <= 13 || 28 <= b <= 32 || b == 0x85 || b == 0xA0
  }

  function Strip(s: seq<byte>, drop: byte -> bool): (r: seq<byte>)
    ensures r <= s && (r != [] ==> !drop(r[|r| - 1]))
  {
    if s != [] && drop(s[|s| - 1]) then Strip(s[..|s| - 1], drop) else s
  }

  /** `s` cut or filled to `n` bytes. */
  function Field(s: seq<byte>, n: nat, fill: byte): (r: seq<byte>)
    ensures |r| == n
  {
    if |s| >= n then s[..n] else s + seq(n - |s|, _ => fill)
  }

  /** A field gives its string back exactly when that fits and does not end in
      something stripped. */
  lemma FieldRoundTrip(s: seq<byte>, n: nat, fill: byte, drop: byte -> bool)
    requires drop(fill)
    ensures Strip(Field(s, n, fill), drop) == s <==> |s| <= n && (s == [] || !drop(s[|s| - 1]))
  {
    if |s| <= n {
      FillStripped(s, n - |s|, fill, drop);
      assert |s| == n ==> s[..n] == s + seq(0, _ => fill);
    }
  }

  lemma {:induction false} FillStripped(s: seq<byte>, k: nat, fill: byte, drop: byte -> bool)
    requires drop(fill)
    ensures Strip(s + seq(k, _ => fill), drop) == Strip(s, drop)
  {
    if k == 0 {
      assert s + seq(0, _ => fill) == s;
    } else {
      var t := s + seq(k, _ => fill);
      assert t[..|t| - 1] == s + seq(k - 1, _ => fill);
      FillStripped(s, k - 1, fill, drop);
    }
  }

  /** The name half of a catalogue entry: the name, and the directory letter with the
      lock in its top bit. */
  function NameEntry(f: DfsFile): (r: seq<byte>)
    ensures |r| == 8
  {
    Field(f.name, 7, SPACE) + [if f.locked && f.dir < 128 then f.dir + 128 else f.dir]
  }

  /** The address half: load and execution addresses, length and start sector, their
      top bits packed into one byte. */
  function InfoEntry(f: DfsFile, start: nat): (r: seq<byte>)
    ensures |r| == 8
  {
    var len := |f.data|;
    [f.load % 256, f.load / 256 % 256, f.exec % 256, f.exec / 256 % 256, len % 256, len / 256 % 256,
     f.exec / 0x1_0000 % 4 * 64 + len / 0x1_0000 % 4 * 16 + f.load / 0x1_0000 % 4 * 4 + start / 256 % 4,
     start % 256]
  }

  function LengthIn(e: seq<byte>): nat
    requires |e| == 8
  {
    e[4] as int + 256 * (e[5] as int) + 0x1_0000 * (e[6] as int / 16 % 4)
  }

  function StartIn(e: seq<byte>): nat
    requires |e| == 8
  {
    e[7] as int + 256 * (e[6] as int % 4)
  }

  lemma InfoRoundTrip(f: DfsFile, start: nat)
    requires |f.data| < 0x4_0000 && start < 0x400
    ensures LengthIn(InfoEntry(f, start)) == |f.data| && StartIn(InfoEntry(f, start)) == start
  {
    var len := |f.data|;
    PackedByte(f.exec / 0x1_0000 % 4, len / 0x1_0000 % 4, f.load / 0x1_0000 % 4, start / 256 % 4);
    assert len / 0x1_0000 == len / 256 / 256;
  }

  /** The low 18 bits of the load and execution addresses can be read back, and the top
      bit of the letter tells a locked file, for a letter of seven bits. */
  lemma AddressesKept(f: DfsFile, start: nat)
    ensures var e := InfoEntry(f, start);
            && e[0] as int + 256 * (e[1] as int) + 0x1_0000 * (e[6] as int / 4 % 4) == f.load % 0x4_0000
            && e[2] as int + 256 * (e[3] as int) + 0x1_0000 * (e[6] as int / 64) == f.exec % 0x4_0000
    ensures f.dir < 128 ==> (NameEntry(f)[7] >= 128 <==> f.locked) && NameEntry(f)[7] % 128 == f.dir
    ensures forall i :: 0 <= i < 7 ==> NameEntry(f)[i] == if i < |f.name| then f.name[i] else SPACE
  {
    TopBits(f.exec / 0x1_0000 % 4, |f.data| / 0x1_0000 % 4, f.load / 0x1_0000 % 4, start / 256 % 4);
    LowBits(f.load);
    LowBits(f.exec);
  }

  lemma LowBits(a: nat)
    ensures a % 256 + 256 * (a / 256 % 256) + 0x1_0000 * (a / 0x1_0000 % 4) == a % 0x4_0000
  {
    assert a / 0x1_0000 == a / 256 / 256;
    var q := a / 0x1_0000;
    assert a == 0x4_0000 * (q / 4) + (0x1_0000 * (q % 4) + 256 * (a / 256 % 256) + a % 256);
  }

  lemma TopBits(x: nat, l: nat, o: nat, s: nat)
    requires x < 4 && l < 4 && o < 4 && s < 4
    ensures var b := x * 64 + l * 16 + o * 4 + s; b / 64 == x && b / 4 % 4 == o
  {
    var b := x * 64 + l * 16 + o * 4 + s;
    assert b / 4 == 4 * (4 * x + l) + o;
  }

  lemma PackedByte(x: nat, l: nat, o: nat, s: nat)
    requires x < 4 && l < 4 && o < 4 && s < 4
    ensures var b := x * 64 + l * 16 + o * 4 + s; b < 256 && b % 4 == s && b / 16 % 4 == l
  {
    var b := x * 64 + l * 16 + o * 4 + s;
    assert b == 16 * (4 * x + l) + (4 * o + s);
  }

  // ---- images -------------------------------------------------------------------------

  /** `s` stands at `off`. */
  predicate At(img: seq<byte>, off: nat, s: seq<byte>) {
    off + |s| <= |img| && img[off..off + |s|] == s
  }

  /** A write elsewhere leaves it standing. */
  lemma PatchKeeps(img: seq<byte>, at: nat, data: seq<byte>, off: nat, s: seq<byte>)
    requires at + |data| <= |img| && At(img, off, s) && (off + |s| <= at || at + |data| <= off)
    ensures At(Patched(img, at, data), off, s)
  {
    var img' := Patched(img, at, data);
    assert forall i :: off <= i < off + |s| ==> img'[i] == img[i];
    assert img'[off..off + |s|] == img[off..off + |s|];
  }

  lemma PatchStands(img: seq<byte>, at: nat, data: seq<byte>)
    requires at + |data| <= |img|
    ensures At(Patched(img, at, data), at, data)
  {
  }

  ghost predicate FilesAt(img: seq<byte>, files: seq<DfsFile>, n: nat)
    requires n <= |files|
  {
    forall i :: 0 <= i < n ==> At(img, StartOf(files, i) * SECTOR, files[i].data)
  }

  /** The `i`-th catalogue entry is that of a file placed at `start`. */
  ghost predicate EntryAt(img: seq<byte>, i: nat, f: DfsFile, start: nat) {
    At(img, 8 + 8 * i, NameEntry(f)) && At(img, 264 + 8 * i, InfoEntry(f, start))
  }

  ghost predicate EntriesAt(img: seq<byte>, files: seq<DfsFile>, order: seq<nat>, n: nat)
    requires n <= |order| && forall i :: 0 <= i < |order| ==> order[i] < |files|
  {
    forall i :: 0 <= i < n ==> EntryAt(img, i, files[order[i]], StartOf(files, order[i]))
  }

  /** Title in two parts, entry count, boot option, disc size. */
  ghost predicate HeaderAt(img: seq<byte>, title: seq<byte>, boot: nat, n: nat)
    requires n <= MAX_FILES
  {
    var t := Field(title, 12, 0);
    At(img, 0, t[..8]) && At(img, 256, t[8..]) && At(img, 261, [8 * n, boot % 4 * 16 + 3, 32])
  }

  ghost function Starts(files: seq<DfsFile>): (s: seq<nat>) {
    seq(|files|, i requires 0 <= i < |files| => StartOf(files, i))
  }

  /** What a built image holds. */
  ghost predicate Laid(img: seq<byte>, title: seq<byte>, files: seq<DfsFile>, boot: nat, order: seq<nat>) {
    && |img| == IMAGE_SIZE && |files| <= MAX_FILES && Fits(files) && Ordered(Starts(files), |files|, order)
    && HeaderAt(img, title, boot, |files|) && EntriesAt(img, files, order, |files|) && FilesAt(img, files, |files|)
  }

  // ---- parsing ------------------------------------------------------------------------

  datatype Listing = Listing(dir: byte, name: seq<byte>, start: nat, length: nat)
  datatype Catalogue = Catalogue(title: seq<byte>, boot: nat, files: seq<Listing>)

  function ParseEntry(img: seq<byte>, i: nat): Listing
    requires |img| == IMAGE_SIZE && i < 32
  {
    var name, info := img[8 + 8 * i..16 + 8 * i], img[264 + 8 * i..272 + 8 * i];
    Listing(name[7] % 128, Strip(name[..7], IsSpace), StartIn(info), LengthIn(info))
  }

  function Parse(img: seq<byte>): Catalogue
    requires |img| == IMAGE_SIZE
  {
    Catalogue(Strip(img[0..8] + img[256..260], b => b == 0 || b == SPACE), img[262] / 16 % 4,
              seq(img[261] / 8, i requires 0 <= i < img[261] / 8 => ParseEntry(img, i)))
  }

  /** How the catalogue lists a file. */
  function Listed(f: DfsFile, start: nat): Listing {
    Listing(f.dir % 128, Strip(Field(f.name, 7, SPACE), IsSpace), start, |f.data|)
  }

  lemma EntryParses(img: seq<byte>, files: seq<DfsFile>, order: seq<nat>, i: nat)
    requires |img| == IMAGE_SIZE && Fits(files) && i < |order| <= MAX_FILES
    requires (forall k :: 0 <= k < |order| ==> order[k] < |files|) && EntriesAt(img, files, order, |order|)
    ensures ParseEntry(img, i) == Listed(files[order[i]], StartOf(files, order[i]))
  {
    hide StartOf, Strip, Field, StartIn, LengthIn;
    var f := files[order[i]];
    var start := StartOf(files, order[i]);
    StartsRise(files, order[i], |files|);
    InfoRoundTrip(f, start);
    assert img[8 + 8 * i..16 + 8 * i] == NameEntry(f);
    assert img[264 + 8 * i..272 + 8 * i] == InfoEntry(f, start);
    assert NameEntry(f)[..7] == Field(f.name, 7, SPACE);
  }

  lemma HeaderParses(img: seq<byte>, title: seq<byte>, boot: nat, n: nat)
    requires |img| == IMAGE_SIZE && n <= MAX_FILES && HeaderAt(img, title, boot, n)
    ensures img[261] / 8 == n && img[262] / 16 % 4 == boot % 4 && img[0..8] + img[256..260] == Field(title, 12, 0)
  {
    hide Field;
    var t := Field(title, 12, 0);
    assert img[261] == img[261..264][0] && img[262] == img[261..264][1];
    assert t == t[..8] + t[8..];
  }

  /** Parsing a built image lists every file, latest start first, with its start and
      length, and at that start stand its bytes. */
  lemma ParseBuilt(img: seq<byte>, title: seq<byte>, files: seq<DfsFile>, boot: nat, order: seq<nat>)
    requires Laid(img, title, files, boot, order)
    ensures var c := Parse(img);
            && c.title == Strip(Field(title, 12, 0), b => b == 0 || b == SPACE) && c.boot == boot % 4
            && |c.files| == |files|
            && (forall i :: 0 <= i < |files| ==>
                              c.files[i] == Listed(files[order[i]], StartOf(files, order[i])) &&
                              At(img, c.files[i].start * SECTOR, files[order[i]].data))
  {
    hide StartOf, Strip, Field, StartIn, LengthIn, ParseEntry, At, HeaderAt, Covers, Falling;
    HeaderParses(img, title, boot, |files|);
    forall i | 0 <= i < |files|
      ensures ParseEntry(img, i) == Listed(files[order[i]], StartOf(files, order[i]))
    {
      EntryParses(img, files, order, i);
    }
  }

  /** The listing runs from the latest start to the earliest. */
  lemma ListedDescending(img: seq<byte>, title: seq<byte>, files: seq<DfsFile>, boot: nat, order: seq<nat>, i: nat,
                         j: nat)
    requires Laid(img, title, files, boot, order) && i < j < |files|
    ensures var c := Parse(img); |c.files| == |files| && c.files[i].start >= c.files[j].start
  {
    hide HeaderAt, EntriesAt, FilesAt, Covers, Parse, StartOf, At, Strip, Field;
    ParseBuilt(img, title, files, boot, order);
    assert Before(Starts(files), order[i], order[j]);
  }

  /** A name and directory letter that survive: at most seven characters, no trailing
      white space, and a letter of seven bits. */
  predicate Plain(f: DfsFile) {
    |f.name| <= 7 && (f.name == [] || !IsSpace(f.name[|f.name| - 1])) && f.dir < 128
  }

  /** The catalogue gives a file back exactly when its name and directory are plain. */
  lemma ListedExact(f: DfsFile, start: nat)
    ensures Listed(f, start) == Listing(f.dir, f.name, start, |f.data|) <==> Plain(f)
  {
    FieldRoundTrip(f.name, 7, SPACE, IsSpace);
  }

  /** The catalogue gives back every file's directory, name, start and length. */
  ghost predicate GivesBack(c: Catalogue, files: seq<DfsFile>, order: seq<nat>)
    requires |order| == |files| && forall i :: 0 <= i < |order| ==> order[i] < |files|
  {
    && |c.files| == |files|
    && forall i :: 0 <= i < |files| ==>
                     var f := files[order[i]]; c.files[i] == Listing(f.dir, f.name, StartOf(files, order[i]), |f.data|)
  }

  /** Parsing a built image gives every file back if and only if all are plain. */
  lemma RoundTripExact(img: seq<byte>, title: seq<byte>, files: seq<DfsFile>, boot: nat, order: seq<nat>)
    requires Laid(img, title, files, boot, order)
    ensures GivesBack(Parse(img), files, order) <==> forall i :: 0 <= i < |files| ==> Plain(files[i])
  {
    hide Parse, Plain, Listed, StartOf, HeaderAt, EntriesAt, FilesAt, Falling;
    ParseBuilt(img, title, files, boot, order);
    forall i | 0 <= i < |files|
      ensures var f := files[order[i]];
              Plain(f) <==> Parse(img).files[i] == Listing(f.dir, f.name, StartOf(files, order[i]), |f.data|)
    {
      ListedExact(files[order[i]], StartOf(files, order[i]));
    }
    if GivesBack(Parse(img), files, order) {
      forall x: nat | x < |files| ensures Plain(files[x]) {
        assert x in order;
        var i :| 0 <= i < |order| && order[i] == x;
      }
    }
  }

  /** The title comes back exactly when it has at most twelve characters and does not
      end in a NUL or a space. */
  lemma TitleExact(img: seq<byte>, title: seq<byte>, files: seq<DfsFile>, boot: nat, order: seq<nat>)
    requires Laid(img, title, files, boot, order)
    ensures Parse(img).title == title <==>
            |title| <= 12 && (title == [] || (title[|title| - 1] != 0 && title[|title| - 1] != SPACE))
  {
    hide HeaderAt, EntriesAt, FilesAt, Ordered;
    ParseBuilt(img, title, files, boot, order);
    FieldRoundTrip(title, 12, 0, b => b == 0 || b == SPACE);
  }

  /** A name ending in a tab comes back without it. */
  lemma TrailingTabLost()
    ensures var f := DfsFile([65, 9], 36, false, [], 0, 0); Listed(f, 2).name == [65] != f.name
  {
    var f := DfsFile([65, 9], 36, false, [], 0, 0);
    FillStripped([65, 9], 5, SPACE, IsSpace);
    assert Field(f.name, 7, SPACE) == [65, 9] + seq(5, _ => SPACE);
    assert [65, 9][..1] == [65];
  }

  // ---- building -----------------------------------------------------------------------

  method Put(img: array<byte>, off: nat, s: seq<byte>)
    requires off + |s| <= img.Length
    modifies img
    ensures img[..] == Patched(old(img[..]), off, s)
  {
    forall i | 0 <= i < |s| {
      img[off + i] := s[i];
    }
  }

  /** Places the files one after the other, from the first free sector on. */
  method PlaceFiles(img: array<byte>, files: seq<DfsFile>) returns (ok: bool, starts: seq<nat>)
    requires img.Length == IMAGE_SIZE
    modifies img
    ensures ok == Fits(files)
    ensures ok ==> starts == Starts(files) && FilesAt(img[..], files, |files|)
    ensures img[..CAT_SECTORS * SECTOR] == old(img[..CAT_SECTORS * SECTOR])
  {
    hide FilesAt, At, Patched, StartOf;
    var next := CAT_SECTORS;
    FirstStart(files);
    starts := [];
    NoFiles(img[..], files);
    for i := 0 to |files|
      invariant next == StartOf(files, i) <= TOTAL_SECTORS
      invariant |starts| == i && forall k :: 0 <= k < i ==> starts[k] == StartOf(files, k)
      invariant FilesAt(img[..], files, i)
      invariant img[..CAT_SECTORS * SECTOR] == old(img[..CAT_SECTORS * SECTOR])
    {
      var data := files[i].data;
      NextStart(files, i);
      if next + Sectors(|data|) > TOTAL_SECTORS {
        StartsRise(files, i + 1, |files|);
        return false, [];
      }
      ghost var was := img[..];
      PlaceOne(was, files, i);
      Put(img, next * SECTOR, data);
      starts := starts + [next];
      next := next + Sectors(|data|);
    }
    ok := true;
  }

  lemma FirstStart(files: seq<DfsFile>)
    ensures StartOf(files, 0) == CAT_SECTORS
  {
  }

  lemma NextStart(files: seq<DfsFile>, i: nat)
    requires i < |files|
    ensures StartOf(files, i + 1) == StartOf(files, i) + Sectors(|files[i].data|)
  {
  }

  lemma NoFiles(img: seq<byte>, files: seq<DfsFile>)
    ensures FilesAt(img, files, 0)
  {
  }

  lemma PlaceOne(img: seq<byte>, files: seq<DfsFile>, i: nat)
    requires |img| == IMAGE_SIZE && i < |files| && StartOf(files, i + 1) <= TOTAL_SECTORS && FilesAt(img, files, i)
    ensures StartOf(files, i) * SECTOR + |files[i].data| <= IMAGE_SIZE
    ensures var img' := Patched(img, StartOf(files, i) * SECTOR, files[i].data);
            FilesAt(img', files, i + 1) && img'[..CAT_SECTORS * SECTOR] == img[..CAT_SECTORS * SECTOR]
  {
    hide StartOf, At;
    StartsRise(files, i, i + 1);
    PatchStands(img, StartOf(files, i) * SECTOR, files[i].data);
    forall k | 0 <= k < i
      ensures At(Patched(img, StartOf(files, i) * SECTOR, files[i].data), StartOf(files, k) * SECTOR, files[k].data)
    {
      StartsRise(files, k, i);
      PatchKeeps(img, StartOf(files, i) * SECTOR, files[i].data, StartOf(files, k) * SECTOR, files[k].data);
    }
  }

  /** The image once one catalogue entry is written. */
  function WithEntry(img: seq<byte>, i: nat, f: DfsFile, start: nat): (r: seq<byte>)
    requires |img| == IMAGE_SIZE && i < MAX_FILES
    ensures |r| == IMAGE_SIZE
  {
    Patched(Patched(img, 8 + 8 * i, NameEntry(f)), 264 + 8 * i, InfoEntry(f, start))
  }

  lemma WithEntryStands(img: seq<byte>, i: nat, f: DfsFile, start: nat)
    requires |img| == IMAGE_SIZE && i < MAX_FILES
    ensures EntryAt(WithEntry(img, i, f, start), i, f, start)
  {
    hide At, NameEntry, InfoEntry;
    var a := Patched(img, 8 + 8 * i, NameEntry(f));
    PatchStands(img, 8 + 8 * i, NameEntry(f));
    PatchKeeps(a, 264 + 8 * i, InfoEntry(f, start), 8 + 8 * i, NameEntry(f));
    PatchStands(a, 264 + 8 * i, InfoEntry(f, start));
  }

  lemma WithEntryKeeps(img: seq<byte>, i: nat, f: DfsFile, start: nat, k: nat, g: DfsFile, from: nat)
    requires |img| == IMAGE_SIZE && k < i < MAX_FILES && EntryAt(img, k, g, from)
    ensures EntryAt(WithEntry(img, i, f, start), k, g, from)
  {
    hide At, NameEntry, InfoEntry;
    var a := Patched(img, 8 + 8 * i, NameEntry(f));
    PatchKeeps(img, 8 + 8 * i, NameEntry(f), 8 + 8 * k, NameEntry(g));
    PatchKeeps(img, 8 + 8 * i, NameEntry(f), 264 + 8 * k, InfoEntry(g, from));
    PatchKeeps(a, 264 + 8 * i, InfoEntry(f, start), 8 + 8 * k, NameEntry(g));
    PatchKeeps(a, 264 + 8 * i, InfoEntry(f, start), 264 + 8 * k, InfoEntry(g, from));
  }

  /** One more entry stands, and those before it still do. */
  lemma EntryOne(img: seq<byte>, files: seq<DfsFile>, order: seq<nat>, i: nat)
    requires |img| == IMAGE_SIZE && i < |order| <= MAX_FILES && forall k :: 0 <= k < |order| ==> order[k] < |files|
    requires EntriesAt(img, files, order, i)
    ensures EntriesAt(WithEntry(img, i, files[order[i]], StartOf(files, order[i])), files, order, i + 1)
  {
    hide StartOf, EntryAt, WithEntry;
    var f, start := files[order[i]], StartOf(files, order[i]);
    WithEntryStands(img, i, f, start);
    forall k | 0 <= k < i
      ensures EntryAt(WithEntry(img, i, f, start), k, files[order[k]], StartOf(files, order[k]))
    {
      WithEntryKeeps(img, i, f, start, k, files[order[k]], StartOf(files, order[k]));
    }
  }

  /** A catalogue write disturbs neither the header nor the files. */
  lemma EntryKeeps(img: seq<byte>, at: nat, data: seq<byte>, title: seq<byte>, files: seq<DfsFile>, boot: nat)
    requires |img| == IMAGE_SIZE && |files| <= MAX_FILES && |data| == 8
    requires 8 <= at <= 248 || 264 <= at <= 504
    requires HeaderAt(img, title, boot, |files|) && FilesAt(img, files, |files|)
    ensures var img' := Patched(img, at, data); HeaderAt(img', title, boot, |files|) && FilesAt(img', files, |files|)
  {
    hide StartOf, At, Field;
    var t := Field(title, 12, 0);
    PatchKeeps(img, at, data, 0, t[..8]);
    PatchKeeps(img, at, data, 256, t[8..]);
    PatchKeeps(img, at, data, 261, [8 * |files|, boot % 4 * 16 + 3, 32]);
    forall i | 0 <= i < |files| ensures At(Patched(img, at, data), StartOf(files, i) * SECTOR, files[i].data) {
      PatchKeeps(img, at, data, StartOf(files, i) * SECTOR, files[i].data);
    }
  }

  method WriteHeader(img: array<byte>, title: seq<byte>, boot: nat, files: seq<DfsFile>)
    requires img.Length == IMAGE_SIZE && |files| <= MAX_FILES && FilesAt(img[..], files, |files|)
    modifies img
    ensures HeaderAt(img[..], title, boot, |files|) && FilesAt(img[..], files, |files|)
  {
    hide StartOf, At, Field, Patched;
    var t := Field(title, 12, 0);
    ghost var a := img[..];
    Put(img, 0, t[..8]);
    ghost var b := img[..];
    Put(img, 256, t[8..]);
    ghost var c := img[..];
    var info: seq<byte> := [8 * |files|, boot % 4 * 16 + 3, 32];
    Put(img, 261, info);
    PatchStands(a, 0, t[..8]);
    PatchStands(b, 256, t[8..]);
    PatchStands(c, 261, info);
    PatchKeeps(b, 256, t[8..], 0, t[..8]);
    PatchKeeps(c, 261, info, 0, t[..8]);
    PatchKeeps(c, 261, info, 256, t[8..]);
    forall i | 0 <= i < |files| ensures At(img[..], StartOf(files, i) * SECTOR, files[i].data) {
      PatchKeeps(a, 0, t[..8], StartOf(files, i) * SECTOR, files[i].data);
      PatchKeeps(b, 256, t[8..], StartOf(files, i) * SECTOR, files[i].data);
      PatchKeeps(c, 261, info, StartOf(files, i) * SECTOR, files[i].data);
    }
  }

  method WriteEntries(img: array<byte>, title: seq<byte>, boot: nat, files: seq<DfsFile>, starts: seq<nat>,
                      order: seq<nat>)
    requires img.Length == IMAGE_SIZE && |files| <= MAX_FILES && starts == Starts(files) &&
             Ordered(starts, |files|, order)
    requires HeaderAt(img[..], title, boot, |files|) && FilesAt(img[..], files, |files|)
    modifies img
    ensures HeaderAt(img[..], title, boot, |files|) && FilesAt(img[..], files, |files|)
    ensures EntriesAt(img[..], files, order, |files|)
  {
    hide StartOf, At, HeaderAt, FilesAt, Patched, NameEntry, InfoEntry, Covers, Falling;
    for i := 0 to |order|
      invariant HeaderAt(img[..], title, boot, |files|) && FilesAt(img[..], files, |files|)
      invariant EntriesAt(img[..], files, order, i)
    {
      ghost var a := img[..];
      var f := files[order[i]];
      EntryOne(a, files, order, i);
      EntryKeeps(a, 8 + 8 * i, NameEntry(f), title, files, boot);
      Put(img, 8 + 8 * i, NameEntry(f));
      EntryKeeps(img[..], 264 + 8 * i, InfoEntry(f, starts[order[i]]), title, files, boot);
      Put(img, 264 + 8 * i, InfoEntry(f, starts[order[i]]));
    }
  }

  /** Builds a disc image, or says why it cannot. The catalogue lists the files in
      `order`. */
  method Build(title: seq<byte>, files: seq<DfsFile>, boot: nat) returns (r: Result<seq<byte>>, ghost order: seq<nat>)
    ensures r == Err(TooManyFiles) <==> |files| > MAX_FILES
    ensures r == Err(DiscFull) <==> |files| <= MAX_FILES && !Fits(files)
    ensures r.Ok? ==> Laid(r.value, title, files, boot, order)
  {
    hide Fits, HeaderAt, FilesAt, EntriesAt, Ordered, StartOf;
    order := [];
    if |files| > MAX_FILES {
      return Err(TooManyFiles), [];
    }
    var img := new byte[IMAGE_SIZE](_ => 0);
    var ok, starts := PlaceFiles(img, files);
    if !ok {
      return Err(DiscFull), [];
    }
    var listed := SortDescending(starts);
    order := listed;
    WriteHeader(img, title, boot, files);
    WriteEntries(img, title, boot, files, starts, listed);
    r := Ok(img[..]);
  }
}
