/**
 * The session manager: session directories under one base directory, listed
 * in descending ID order (latest day first), looked up by ID, created with a
 * date-stamped ID and deleted.
 */
module SessionManager {
  import opened Wrappers
  import Strings
  import opened Sessions
  import opened FileSystem

  // ---------------------------------------------------------------------
  // Session IDs
  // ---------------------------------------------------------------------

  function Pow10(k: nat): (r: nat)
    ensures r >= 1
  {
    if k == 0 then 1 else 10 * Pow10(k - 1)
  }

  function Digit(d: nat): char
    requires d < 10
  {
    ('0' as int + d) as char
  }

  predicate IsDigit(c: char) { '0' <= c <= '9' }

  function DigitValue(c: char): nat
    requires IsDigit(c)
  {
    c as int - '0' as int
  }

  /** `%0<w>d` of a number below `10^w`: its last `w` decimal digits. */
  function Pad(x: nat, w: nat): (r: string)
    ensures |r| == w
    ensures forall k :: 0 <= k < w ==> IsDigit(r[k])
  {
    if w == 0 then [] else Pad(x / 10, w - 1) + [Digit(x % 10)]
  }

  /** The number a string of decimal digits spells. */
  function Value(s: string): nat
    requires forall k :: 0 <= k < |s| ==> IsDigit(s[k])
  {
    if |s| == 0 then 0 else 10 * Value(s[..|s| - 1]) + DigitValue(s[|s| - 1])
  }

  lemma {:induction false} PadValue(x: nat, w: nat)
    requires x < Pow10(w)
    ensures Value(Pad(x, w)) == x
  {
    if w > 0 {
      assert x / 10 < Pow10(w - 1);
      PadValue(x / 10, w - 1);
      assert Pad(x, w)[..w - 1] == Pad(x / 10, w - 1);
      assert DigitValue(Digit(x % 10)) == x % 10;
    }
  }

  lemma DivMod10(q: nat, b: nat)
    ensures (q * 10 + b) / 10 == q + b / 10
    ensures (q * 10 + b) % 10 == b % 10
  {
    var n := q * 10 + b;
    assert n == (q + b / 10) * 10 + b % 10;
  }

  lemma ShiftDigit(a: nat, b: nat, k: nat)
    requires k > 0 && b < Pow10(k)
    ensures (a * Pow10(k) + b) / 10 == a * Pow10(k - 1) + b / 10
    ensures (a * Pow10(k) + b) % 10 == b % 10
    ensures b / 10 < Pow10(k - 1)
  {
    var p := Pow10(k - 1);
    assert Pow10(k) == 10 * p;
    assert a * (10 * p) == (a * p) * 10;
    DivMod10(a * p, b);
  }

  /** Padding a number whose low `k` digits are `b` splits into the padding of
      its high part and the padding of `b`. */
  lemma {:induction false} PadSplit(a: nat, b: nat, w: nat, k: nat)
    requires b < Pow10(k)
    ensures Pad(a * Pow10(k) + b, w + k) == Pad(a, w) + Pad(b, k)
  {
    if k == 0 {
      assert b == 0 && a * Pow10(k) == a;
    } else {
      ShiftDigit(a, b, k);
      PadSplit(a, b / 10, w, k - 1);
    }
  }

  /** Among numbers below `10^w`, padding preserves the order. */
  lemma {:induction false} PadOrder(x: nat, y: nat, w: nat)
    requires x < y < Pow10(w)
    ensures Strings.Less(Pad(x, w), Pad(y, w))
  {
    assert w > 0;
    assert y / 10 < Pow10(w - 1);
    if x / 10 < y / 10 {
      PadOrder(x / 10, y / 10, w - 1);
      Strings.LessSameLength(Pad(x / 10, w - 1), Pad(y / 10, w - 1), [Digit(x % 10)], [Digit(y % 10)]);
    } else {
      assert x % 10 < y % 10;
      assert Strings.Less([Digit(x % 10)], [Digit(y % 10)]);
      Strings.LessCommonPrefix(Pad(x / 10, w - 1), [Digit(x % 10)], [Digit(y % 10)]);
    }
  }

  /** A calendar day as the clock reports it. */
  datatype Date = Date(year: nat, month: nat, day: nat)

  predicate ValidDate(d: Date) {
    d.year <= 9999 && 1 <= d.month <= 12 && 1 <= d.day <= 31
  }

  /** The day as the number `YYYYMMDD` spells. */
  function DayNumber(d: Date): nat {
    d.year * 10000 + d.month * 100 + d.day
  }

  /** The ID of a session created on `d` with random draw `r`: the date in
      Go's `20060102` layout, a dash, and the draw as `%04d`. */
  function SessionId(d: Date, r: nat): string
    requires ValidDate(d) && r < 10000
  {
    Pad(d.year, 4) + Pad(d.month, 2) + Pad(d.day, 2) + "-" + Pad(r, 4)
  }

  /** The ID is the eight-digit day number, a dash and four digits, and each
      field reads back as the value it was made from. */
  lemma SessionIdFormat(d: Date, r: nat)
    requires ValidDate(d) && r < 10000
    ensures var id := SessionId(d, r);
      |id| == 13 && id[8] == '-' &&
      (forall k :: 0 <= k < 13 && k != 8 ==> IsDigit(id[k])) &&
      id[..8] == Pad(DayNumber(d), 8) &&
      Value(id[..4]) == d.year && Value(id[4..6]) == d.month && Value(id[6..8]) == d.day &&
      Value(id[9..]) == r
  {
    var y, m, dd, n := Pad(d.year, 4), Pad(d.month, 2), Pad(d.day, 2), Pad(r, 4);
    var id := SessionId(d, r);
    assert id == y + m + dd + "-" + n;
    assert id[..4] == y && id[4..6] == m && id[6..8] == dd && id[9..] == n;
    PadValue(d.year, 4);
    PadValue(d.month, 2);
    PadValue(d.day, 2);
    PadValue(r, 4);
    DayPrefix(d);
    assert id[..8] == y + m + dd;
  }

  lemma DayPrefix(d: Date)
    requires ValidDate(d)
    ensures Pad(d.year, 4) + Pad(d.month, 2) + Pad(d.day, 2) == Pad(DayNumber(d), 8)
  {
    PadSplit(d.year, d.month, 4, 2);
    var ym := d.year * 100 + d.month;
    assert ym * 100 + d.day == DayNumber(d);
    PadSplit(ym, d.day, 6, 2);
  }

  /** Sorting IDs as strings sorts sessions by creation day, and within one
      day by the random draw. */
  lemma SessionIdOrder(d1: Date, r1: nat, d2: Date, r2: nat)
    requires ValidDate(d1) && r1 < 10000 && ValidDate(d2) && r2 < 10000
    requires DayNumber(d1) < DayNumber(d2) || (DayNumber(d1) == DayNumber(d2) && r1 < r2)
    ensures Strings.Less(SessionId(d1, r1), SessionId(d2, r2))
  {
    var id1, id2 := SessionId(d1, r1), SessionId(d2, r2);
    SessionIdFormat(d1, r1);
    SessionIdFormat(d2, r2);
    assert id1 == id1[..8] + id1[8..] && id2 == id2[..8] + id2[8..];
    if DayNumber(d1) < DayNumber(d2) {
      PadOrder(DayNumber(d1), DayNumber(d2), 8);
      Strings.LessSameLength(id1[..8], id2[..8], id1[8..], id2[8..]);
    } else {
      assert id1[..9] == id2[..9];
      assert id1 == id1[..9] + Pad(r1, 4) && id2 == id1[..9] + Pad(r2, 4);
      PadOrder(r1, r2, 4);
      Strings.LessCommonPrefix(id1[..9], Pad(r1, 4), Pad(r2, 4));
    }
  }

  // ---------------------------------------------------------------------
  // Listing
  // ---------------------------------------------------------------------

  /** A session as the manager hands it out: its ID and its directory. */
  datatype SessionRef = SessionRef(id: string, path: string)

  datatype ManagerError =
    | ReadDirFailed
    | NotFound(id: string)
    | MkdirFailed
    | RemoveFailed
    | Store(e: StoreError)

  /** How `os.RemoveAll` of a session directory goes: everything is removed,
      or removal fails part-way, after the files it could unlink (possibly
      the metadata file) are gone but with the directory still there. */
  datatype Removal = RemovedAll | RemovalFailed(metaRemoved: bool)

  function EntrySession(base: string, e: DirEntry): SessionRef {
    SessionRef(e.name, JoinPath(base, e.name))
  }

  /** One session per directory entry, in directory order. */
  function Listed(base: string, es: seq<DirEntry>): (r: seq<SessionRef>)
    ensures |r| <= |es|
    ensures forall x :: x in r <==> exists k :: 0 <= k < |es| && es[k].isDir && x == EntrySession(base, es[k])
  {
    if |es| == 0 then []
    else
      var init := es[..|es| - 1];
      var last := es[|es| - 1];
      assert forall k :: 0 <= k < |init| ==> init[k] == es[k];
      Listed(base, init) + (if last.isDir then [EntrySession(base, last)] else [])
  }

  /** The positions of the directory entries of a listing. */
  function DirPositions(es: seq<DirEntry>): set<nat> {
    set k: nat | k < |es| && es[k].isDir
  }

  /** There is exactly one listed session per directory entry. */
  lemma {:induction false} ListedCount(base: string, es: seq<DirEntry>)
    ensures |Listed(base, es)| == |DirPositions(es)|
  {
    if |es| == 0 {
      assert DirPositions(es) == {};
    } else {
      var init, n := es[..|es| - 1], |es| - 1;
      ListedCount(base, init);
      assert Listed(base, es) == Listed(base, init) + (if es[n].isDir then [EntrySession(base, es[n])] else []);
      DirPositionsSnoc(es);
    }
  }

  lemma DirPositionsSnoc(es: seq<DirEntry>)
    requires |es| > 0
    ensures var n := |es| - 1;
      DirPositions(es) == DirPositions(es[..n]) + (if es[n].isDir then {n} else {}) &&
      n !in DirPositions(es[..n])
  {
    var n := |es| - 1;
    var init := es[..n];
    forall k: nat | k < n ensures init[k] == es[k] { }
  }

  /** Names in one directory are distinct. */
  predicate DistinctNames(es: seq<DirEntry>) {
    forall i, j :: 0 <= i < j < |es| ==> es[i].name != es[j].name
  }

  /** No element occurs twice. */
  predicate NoRepeats(r: seq<SessionRef>) {
    forall i, j :: 0 <= i < j < |r| ==> r[i] != r[j]
  }

  /** With distinct names, no session is listed twice. */
  lemma {:induction false} ListedDistinct(base: string, es: seq<DirEntry>)
    requires DistinctNames(es)
    ensures NoRepeats(Listed(base, es))
  {
    if |es| > 0 {
      var init, last := es[..|es| - 1], es[|es| - 1];
      assert DistinctNames(init);
      ListedDistinct(base, init);
      var prev := Listed(base, init);
      if last.isDir {
        var x := EntrySession(base, last);
        forall i | 0 <= i < |prev| ensures prev[i] != x {
          assert prev[i] in prev;
          var k :| 0 <= k < |init| && init[k].isDir && prev[i] == EntrySession(base, init[k]);
          assert init[k] == es[k];
        }
        var r := Listed(base, es);
        assert r == prev + [x];
        forall i, j | 0 <= i < j < |r| ensures r[i] != r[j] {
          assert NoRepeats(prev);
          if j < |prev| {
            assert r[i] == prev[i] && r[j] == prev[j];
          } else {
            assert r[i] == prev[i] && r[j] == x;
          }
        }
      } else {
        assert Listed(base, es) == prev;
        assert NoRepeats(prev);
      }
    }
  }

  /** Descending by ID, as `sort.Slice` with `>` leaves it. */
  predicate SortedDesc(s: seq<SessionRef>) {
    forall i, j :: 0 <= i < j < |s| ==> !Strings.Less(s[i].id, s[j].id)
  }

  /** Places `x` in a descending sequence. */
  function InsertDesc(x: SessionRef, s: seq<SessionRef>): (r: seq<SessionRef>)
    requires SortedDesc(s)
    ensures SortedDesc(r)
    ensures multiset(r) == multiset(s) + multiset{x}
  {
    if |s| == 0 then [x]
    else if !Strings.Less(x.id, s[0].id) then
      forall j | 0 <= j < |s| ensures !Strings.Less(x.id, s[j].id) {
        if j > 0 { Strings.NotLessTransitive(x.id, s[0].id, s[j].id); }
      }
      SortedCons(x, s);
      assert multiset([x] + s) == multiset(s) + multiset{x};
      [x] + s
    else
      var rest := InsertDesc(x, s[1..]);
      assert s == [s[0]] + s[1..];
      Strings.LessAsymmetric(x.id, s[0].id);
      HeadDominates(s, x, rest);
      SortedCons(s[0], rest);
      [s[0]] + rest
  }

  lemma SortedCons(y: SessionRef, s: seq<SessionRef>)
    requires SortedDesc(s) && forall j :: 0 <= j < |s| ==> !Strings.Less(y.id, s[j].id)
    ensures SortedDesc([y] + s)
  {
    var t := [y] + s;
    forall i, j | 0 <= i < j < |t| ensures !Strings.Less(t[i].id, t[j].id) {
      assert t[j] == s[j - 1];
      if i > 0 {
        assert t[i] == s[i - 1];
      }
    }
  }

  lemma HeadDominates(s: seq<SessionRef>, x: SessionRef, rest: seq<SessionRef>)
    requires |s| > 0 && SortedDesc(s) && !Strings.Less(s[0].id, x.id)
    requires multiset(rest) == multiset(s[1..]) + multiset{x}
    ensures forall j :: 0 <= j < |rest| ==> !Strings.Less(s[0].id, rest[j].id)
  {
    forall j | 0 <= j < |rest| ensures !Strings.Less(s[0].id, rest[j].id) {
      assert rest[j] in multiset(rest);
      if rest[j] != x {
        assert rest[j] in multiset(s[1..]);
        var k :| 0 <= k < |s[1..]| && s[1..][k] == rest[j];
        assert s[k + 1] == rest[j];
      }
    }
  }

  lemma ListedEmpty(base: string, es: seq<DirEntry>)
    ensures Listed(base, es) == [] <==> forall k :: 0 <= k < |es| ==> !es[k].isDir
  {
    if Listed(base, es) != [] {
      assert Listed(base, es)[0] in Listed(base, es);
    }
  }

  /** The first session with the given ID. */
  function FindById(ss: seq<SessionRef>, id: string): (r: Option<SessionRef>)
    ensures r.Some? ==> r.value in ss && r.value.id == id
    ensures r.None? <==> forall k :: 0 <= k < |ss| ==> ss[k].id != id
  {
    if |ss| == 0 then None
    else if ss[0].id == id then Some(ss[0])
    else
      var r := FindById(ss[1..], id);
      assert forall k :: 1 <= k < |ss| ==> ss[k] == ss[1..][k - 1];
      r
  }

  /** Some directory entry is a directory named `id`. */
  predicate HasSessionDir(es: seq<DirEntry>, id: string) {
    exists k :: 0 <= k < |es| && es[k].isDir && es[k].name == id
  }

  /** The entries left after `os.RemoveAll` of the directory named `id`. */
  function WithoutEntry(es: seq<DirEntry>, id: string): (r: seq<DirEntry>)
    ensures forall e :: e in r <==> e in es && e.name != id
  {
    if |es| == 0 then []
    else (if es[0].name == id then [] else [es[0]]) + WithoutEntry(es[1..], id)
  }

  class Manager {
    const basePath: string
    /** The entries of the base directory; None when it cannot be read. */
    var entries: Option<seq<DirEntry>>
    /** The metadata file of each session directory, by directory name. */
    var metaFiles: map<string, MetaFile>

    constructor (basePath: string, entries: Option<seq<DirEntry>>, metaFiles: map<string, MetaFile>)
      ensures this.basePath == basePath && this.entries == entries && this.metaFiles == metaFiles
    {
      this.basePath := basePath;
      this.entries := entries;
      this.metaFiles := metaFiles;
    }

    function MetaFileOf(id: string): MetaFile
      reads this
    {
      if id in metaFiles then metaFiles[id] else NoMetaFile
    }

    /** `ListSessions`: one session per directory, greatest ID first. */
    method ListSessions() returns (r: Result<seq<SessionRef>, ManagerError>)
      ensures entries.None? ==> r == Err(ReadDirFailed)
      ensures entries.Some? ==>
        (r.Ok? && SortedDesc(r.value) && multiset(r.value) == multiset(Listed(basePath, entries.value)))
    {
      if entries.None? {
        return Err(ReadDirFailed);
      }
      var es := entries.value;
      var sessions: seq<SessionRef> := [];
      var i := 0;
      while i < |es|
        invariant 0 <= i <= |es|
        invariant sessions == Listed(basePath, es[..i])
      {
        assert es[..i + 1][..i] == es[..i];
        if es[i].isDir {
          sessions := sessions + [SessionRef(es[i].name, JoinPath(basePath, es[i].name))];
        }
        i := i + 1;
      }
      assert es[..i] == es;
      var sorted: seq<SessionRef> := [];
      var j := 0;
      while j < |sessions|
        invariant 0 <= j <= |sessions|
        invariant SortedDesc(sorted)
        invariant multiset(sorted) == multiset(sessions[..j])
      {
        assert sessions[..j + 1] == sessions[..j] + [sessions[j]];
        sorted := InsertDesc(sessions[j], sorted);
        j := j + 1;
      }
      assert sessions[..j] == sessions;
      r := Ok(sorted);
    }

    /** Every listed session comes from a directory entry, and every
        directory entry is listed. */
    lemma ListedSessions(s: seq<SessionRef>, x: SessionRef)
      requires entries.Some? && multiset(s) == multiset(Listed(basePath, entries.value))
      ensures x in s <==> exists k :: 0 <= k < |entries.value| && entries.value[k].isDir &&
                                      x == SessionRef(entries.value[k].name, JoinPath(basePath, entries.value[k].name))
    {
      assert x in s <==> x in multiset(s);
      assert x in Listed(basePath, entries.value) <==> x in multiset(Listed(basePath, entries.value));
    }

    /** `GetLatestSession`: nothing when there is no session directory,
        otherwise the session with the greatest ID. */
    method GetLatestSession() returns (r: Result<Option<SessionRef>, ManagerError>)
      ensures entries.None? ==> r == Err(ReadDirFailed)
      ensures entries.Some? ==> r.Ok?
      ensures entries.Some? ==>
        (r.value.None? <==> forall k :: 0 <= k < |entries.value| ==> !entries.value[k].isDir)
      ensures entries.Some? && r.value.Some? ==>
        r.value.value in Listed(basePath, entries.value) &&
        forall x :: x in Listed(basePath, entries.value) ==> !Strings.Less(r.value.value.id, x.id)
    {
      var sessions := ListSessions();
      if sessions.Err? {
        return Err(sessions.error);
      }
      var ss := sessions.value;
      ghost var listed := Listed(basePath, entries.value);
      ListedEmpty(basePath, entries.value);
      if |ss| == 0 {
        assert multiset(listed) == multiset{};
        return Ok(None);
      }
      assert ss[0] in multiset(listed);
      forall x | x in listed ensures !Strings.Less(ss[0].id, x.id) {
        assert x in multiset(ss);
        var k :| 0 <= k < |ss| && ss[k] == x;
        if k > 0 {
          assert !Strings.Less(ss[0].id, ss[k].id);
        } else {
          Strings.LessIrreflexive(x.id);
        }
      }
      r := Ok(Some(ss[0]));
    }

    /** `FindSessionByID`: the session directory named `id`, or not found. */
    method FindSessionByID(id: string) returns (r: Result<SessionRef, ManagerError>)
      ensures entries.None? ==> r == Err(ReadDirFailed)
      ensures entries.Some? ==> (r.Ok? <==> HasSessionDir(entries.value, id))
      ensures entries.Some? && r.Ok? ==> r.value == SessionRef(id, JoinPath(basePath, id))
      ensures entries.Some? && r.Err? ==> r.error == NotFound(id)
    {
      var sessions := ListSessions();
      if sessions.Err? {
        return Err(sessions.error);
      }
      var ss := sessions.value;
      var found := FindById(ss, id);
      if found.None? {
        if HasSessionDir(entries.value, id) {
          var k :| 0 <= k < |entries.value| && entries.value[k].isDir && entries.value[k].name == id;
          ListedSessions(ss, EntrySession(basePath, entries.value[k]));
          assert false;
        }
        return Err(NotFound(id));
      }
      ListedSessions(ss, found.value);
      r := Ok(found.value);
    }

    /** `DeleteSession`: removes the session directory named `id` and its
        files; nothing is removed when it is not found, and a failed removal
        may have removed the files before the directory. */
    method DeleteSession(id: string, removal: Removal) returns (err: Option<ManagerError>)
      modifies this
      ensures old(entries).None? ==> err == Some(ReadDirFailed) && unchanged(this)
      ensures old(entries).Some? && !HasSessionDir(old(entries).value, id) ==>
        err == Some(NotFound(id)) && unchanged(this)
      ensures old(entries).Some? && HasSessionDir(old(entries).value, id) && removal.RemovalFailed? ==>
        err == Some(RemoveFailed) && entries == old(entries) &&
        metaFiles == (if removal.metaRemoved then old(metaFiles) - {id} else old(metaFiles))
      ensures old(entries).Some? && HasSessionDir(old(entries).value, id) && removal.RemovedAll? ==>
        err == None && entries == Some(WithoutEntry(old(entries).value, id)) &&
        metaFiles == old(metaFiles) - {id}
    {
      var found := FindSessionByID(id);
      if found.Err? {
        return Some(found.error);
      }
      if removal.RemovalFailed? {
        if removal.metaRemoved {
          metaFiles := metaFiles - {id};
        }
        return Some(RemoveFailed);
      }
      entries := Some(WithoutEntry(entries.value, id));
      metaFiles := metaFiles - {id};
      err := None;
    }

    /** `GetSessionInfo`: the session named `id` and its metadata. */
    method GetSessionInfo(id: string) returns (r: Result<(SessionRef, Metadata), ManagerError>)
      ensures entries.None? ==> r == Err(ReadDirFailed)
      ensures entries.Some? && !HasSessionDir(entries.value, id) ==> r == Err(NotFound(id))
      ensures entries.Some? && HasSessionDir(entries.value, id) ==>
        match LoadOf(MetaFileOf(id))
        case Err(e) => r == Err(Store(e))
        case Ok(m) => r == Ok((SessionRef(id, JoinPath(basePath, id)), m))
    {
      var found := FindSessionByID(id);
      if found.Err? {
        return Err(found.error);
      }
      var loaded := LoadOf(MetaFileOf(id));
      if loaded.Err? {
        return Err(Store(loaded.error));
      }
      r := Ok((found.value, loaded.value));
    }

    /** `NewSession`: creates the directory for a fresh date-stamped ID, then
        saves the metadata stamped with two clock readings. A failed save
        leaves the new directory behind, and a write that fails after the
        truncating open leaves a partial metadata file. */
    method NewSession(meta: Metadata, today: Date, draw: nat, created: int, accessed: int, mkdirOk: bool, save: MetaWrite)
      returns (r: Result<SessionRef, ManagerError>)
      requires ValidDate(today) && draw < 10000
      modifies this
      ensures var id := SessionId(today, draw);
        (!mkdirOk ==> r == Err(MkdirFailed) && unchanged(this)) &&
        (mkdirOk ==> entries == AddedDir(old(entries), id)) &&
        (mkdirOk && save.MetaOpenFailed? ==> metaFiles == old(metaFiles)) &&
        (mkdirOk && !save.MetaOpenFailed? ==>
          metaFiles == old(metaFiles)[id := SavedFile(old(MetaFileOf(id)), meta.(createdAt := created, lastAccessed := accessed), save)]) &&
        (mkdirOk && save.MetaWritten? ==> r == Ok(SessionRef(id, JoinPath(basePath, id)))) &&
        (mkdirOk && !save.MetaWritten? ==> r == Err(Store(SaveError(save).value)))
    {
      var id := Pad(today.year, 4) + Pad(today.month, 2) + Pad(today.day, 2) + "-" + Pad(draw, 4);
      var path := JoinPath(basePath, id);
      if !mkdirOk {
        return Err(MkdirFailed);
      }
      entries := AddedDir(entries, id);
      var stamped := meta.(createdAt := created);
      stamped := stamped.(lastAccessed := accessed);
      if !save.MetaOpenFailed? {
        metaFiles := metaFiles[id := SavedFile(MetaFileOf(id), stamped, save)];
      }
      var err := SaveError(save);
      if err.Some? {
        return Err(Store(err.value));
      }
      r := Ok(SessionRef(id, path));
    }
  }

  /** The directory listing after `os.MkdirAll` of the directory `id`. */
  function AddedDir(entries: Option<seq<DirEntry>>, id: string): (r: Option<seq<DirEntry>>)
    ensures entries.Some? ==> r.Some? && HasSessionDir(r.value, id)
  {
    if entries.None? || HasSessionDir(entries.value, id) then entries
    else
      var es := entries.value + [DirEntry(id, true)];
      assert es[|es| - 1].isDir && es[|es| - 1].name == id;
      Some(es)
  }
}
