/** Locating the game (src/process.rs): the `/proc` listing, the name filter on `comm`,
    and the load address taken from the fourth line of `maps`. The file system is a
    parameter: the text of every file that could be read, by path. */
module Process {
  import opened Wrappers
  import opened Errors
  import opened Strs
  import opened Radix
  import Memory

  /** A located game process. */
  datatype GameProcess = GameProcess(path: string, pid: nat, baseAddress: nat, name: string)

  const PidBound: nat := 0x1_0000_0000

  /** The executable names of the two supported games. */
  const GameNames: seq<string> := ["BaldursGate", "BaldursGateII"]

  predicate IsGameName(name: string) { name in GameNames }

  /** What the field types promise: a non-zero `u32` pid, a non-zero `usize` base
      address, and a name that passed the filter. */
  predicate Valid(g: GameProcess)
  {
    && 0 < g.pid < PidBound
    && 0 < g.baseAddress < Memory.UsizeModulus
    && IsGameName(g.name)
  }

  /** The readable files: path to text. A path that is absent cannot be read. */
  type FileSystem = map<string, string>

  /** `read_to_string`. */
  function ReadToString(fs: FileSystem, path: string): (r: Result<string>)
    ensures r.Ok? <==> path in fs
    ensures r.Ok? ==> r.value == fs[path]
    ensures !r.Ok? ==> r == Err(Io)
  {
    if path in fs then Ok(fs[path]) else Err(Io)
  }

  /** `PathBuf::join` of one component. */
  function Join(path: string, component: string): string { path + "/" + component }

  const NoBaseAddress: Error := Memory("Could not get base address")

  /** The start of the mapping on the fourth line of `maps`: the hexadecimal text
      before its first `-`, which must fit a `usize` and must not be zero. */
  function BaseAddress(maps: string): (r: Result<nat>)
    ensures r.Ok? ==> 0 < r.value < Memory.UsizeModulus
    ensures !r.Ok? ==> r == Err(NoBaseAddress)
  {
    var lines := Lines(TrimEnd(maps));
    if |lines| <= 3 then Err(NoBaseAddress)
    else
      match SplitOnce(lines[3], '-')
      case None => Err(NoBaseAddress)
      case Some((start, _)) =>
        match ParseUnsigned(start, 16, Memory.UsizeModulus)
        case Some(v) => if v != 0 then Ok(v) else Err(NoBaseAddress)
        case None => Err(NoBaseAddress)
  }

  /** `GameProcess::new` on one `/proc/<pid>` directory: read `comm` and trim it; a
      process that is not the game is `Ok(None)`; otherwise read `maps` and take the
      base address from it. */
  function GameProcessNew(fs: FileSystem, path: string, pid: nat): (r: Result<Option<GameProcess>>)
    requires 0 < pid < PidBound
    ensures r.Ok? && r.value.Some? ==>
              var g := r.value.value; Valid(g) && g.path == path && g.pid == pid
    ensures !r.Panic?
  {
    var comm :- ReadToString(fs, Join(path, "comm"));
    var name := TrimEnd(comm);
    if !IsGameName(name) then Ok(None)
    else
      var maps :- ReadToString(fs, Join(path, "maps"));
      var base :- BaseAddress(maps);
      Ok(Some(GameProcess(path, pid, base, name)))
  }

  /** One entry of the `/proc` directory: an entry that could not be read, or a name
      (None when it is not UTF-8) and whether its metadata says directory (None when
      the metadata could not be read). */
  datatype DirEntry = Unreadable | DirEntry(name: Option<string>, isDir: Option<bool>)

  const ProcRoot: string := "/proc"

  /** The filter of `get_process_procs`: a readable directory whose name parses as a
      non-zero `u32`, paired with its path. */
  function ProcEntry(e: DirEntry): (p: Option<(string, nat)>)
    ensures p.Some? ==> 0 < p.value.1 < PidBound
  {
    match e
    case Unreadable => None
    case DirEntry(name, isDir) =>
      if isDir != Some(true) || name.None? then None
      else
        match ParseUnsigned(name.value, 10, PidBound)
        case Some(pid) => if pid != 0 then Some((Join(ProcRoot, name.value), pid)) else None
        case None => None
  }

  /** The candidates, in directory order. */
  function Procs(entries: seq<DirEntry>): (ps: seq<(string, nat)>)
    ensures |ps| <= |entries|
    ensures forall k :: 0 <= k < |ps| ==> 0 < ps[k].1 < PidBound
  {
    if entries == [] then []
    else
      var rest := Procs(entries[1..]);
      match ProcEntry(entries[0])
      case Some(p) => [p] + rest
      case None => rest
  }

  /** `get_process_procs`: a listing that could not be opened is an I/O error. */
  function GetProcessProcs(listing: Option<seq<DirEntry>>): (r: Result<seq<(string, nat)>>)
    ensures r.Ok? <==> listing.Some?
    ensures !r.Ok? ==> r == Err(Io)
  {
    match listing
    case None => Err(Io)
    case Some(entries) => Ok(Procs(entries))
  }

  // ----- properties -----

  /** The filter keeps exactly the entries it accepts, in their order. */
  lemma {:induction false} ProcsAppend(a: seq<DirEntry>, b: seq<DirEntry>)
    ensures Procs(a + b) == Procs(a) + Procs(b)
    decreases |a|
  {
    if a != [] {
      assert (a + b)[0] == a[0];
      assert (a + b)[1..] == a[1..] + b;
      ProcsAppend(a[1..], b);
      match ProcEntry(a[0])
      case Some(p) =>
        assert Procs(a + b) == [p] + (Procs(a[1..]) + Procs(b));
      case None =>
    } else {
      assert a + b == b;
    }
  }

  /** A candidate comes from an accepted entry, and every accepted entry is a candidate. */
  lemma {:induction false} ProcsMembers(entries: seq<DirEntry>, p: (string, nat))
    ensures p in Procs(entries) <==> exists i :: 0 <= i < |entries| && ProcEntry(entries[i]) == Some(p)
    decreases |entries|
  {
    if entries != [] {
      ProcsMembers(entries[1..], p);
      if p in Procs(entries[1..]) {
        var i :| 0 <= i < |entries[1..]| && ProcEntry(entries[1..][i]) == Some(p);
        assert ProcEntry(entries[i + 1]) == Some(p);
      }
      if exists i :: 0 <= i < |entries| && ProcEntry(entries[i]) == Some(p) {
        var i :| 0 <= i < |entries| && ProcEntry(entries[i]) == Some(p);
        if i > 0 {
          assert ProcEntry(entries[1..][i - 1]) == Some(p);
        }
      }
    }
  }

  /** A process directory is a candidate under its own pid, and only a directory is. */
  lemma ProcEntryPid(pid: nat)
    requires 0 < pid < PidBound
    ensures ProcEntry(DirEntry(Some(Decimal(pid)), Some(true))) == Some(("/proc/" + Decimal(pid), pid))
    ensures ProcEntry(DirEntry(Some(Decimal(pid)), Some(false))) == None
    ensures ProcEntry(DirEntry(Some(Decimal(pid)), None)) == None
  {
    ParseFormat(pid, 10, PidBound);
    assert Join(ProcRoot, Decimal(pid)) == "/proc/" + Decimal(pid);
  }

  /** A directory named for pid zero is not a candidate. */
  lemma ProcEntryNotZero()
    ensures ProcEntry(DirEntry(Some("0"), Some(true))) == None
  {
    ParseFormat(0, 10, PidBound);
    assert Decimal(0) == "0";
  }

  /** The name is decided on `comm` alone: a process that is not the game is skipped
      whatever its `maps` holds, or whether it can be read at all. */
  lemma NotTheGame(fs: FileSystem, path: string, pid: nat, maps: Option<string>)
    requires 0 < pid < PidBound
    requires Join(path, "comm") in fs && !IsGameName(TrimEnd(fs[Join(path, "comm")]))
    ensures GameProcessNew(fs, path, pid) == Ok(None)
    ensures Join(path, "maps") != Join(path, "comm") ==>
              GameProcessNew(WithFile(fs, Join(path, "maps"), maps), path, pid) == Ok(None)
  {
    var comm := Join(path, "comm");
    if Join(path, "maps") != comm {
      var fs' := WithFile(fs, Join(path, "maps"), maps);
      assert comm in fs' && fs'[comm] == fs[comm];
    }
  }

  /** The file system with one path set to a text, or removed. */
  function WithFile(fs: FileSystem, path: string, text: Option<string>): (fs': FileSystem)
    ensures path in fs' <==> text.Some?
    ensures text.Some? ==> fs'[path] == text.value
    ensures forall q :: q != path ==> (q in fs' <==> q in fs) && (q in fs ==> fs'[q] == fs[q])
  {
    if text.Some? then fs[path := text.value] else fs - {path}
  }

  /** The outcomes of `GameProcess::new` once the name matched: an unreadable `comm`
      or `maps` is an I/O error, and otherwise the process is found exactly when
      `maps` yields a base address. */
  lemma NewOutcomes(fs: FileSystem, path: string, pid: nat)
    requires 0 < pid < PidBound
    ensures Join(path, "comm") !in fs ==> GameProcessNew(fs, path, pid) == Err(Io)
    ensures Join(path, "comm") in fs && IsGameName(TrimEnd(fs[Join(path, "comm")])) ==>
              if Join(path, "maps") !in fs then GameProcessNew(fs, path, pid) == Err(Io)
              else
                var base := BaseAddress(fs[Join(path, "maps")]);
                var name := TrimEnd(fs[Join(path, "comm")]);
                && (GameProcessNew(fs, path, pid).Ok? <==> base.Ok?)
                && (base.Ok? ==> GameProcessNew(fs, path, pid) == Ok(Some(GameProcess(path, pid, base.value, name))))
                && (!base.Ok? ==> GameProcessNew(fs, path, pid) == Err(NoBaseAddress))
  {
  }

  /** `comm` ends in a newline; trimming gives back the bare game name. */
  lemma {:induction false} TrimmedName(name: string, w: string)
    requires IsGameName(name)
    requires forall i :: 0 <= i < |w| ==> IsWhitespace(w[i])
    ensures TrimEnd(name + w) == name
    decreases |w|
  {
    if w == [] {
      assert name + w == name;
      assert name[|name| - 1] == 'e' || name[|name| - 1] == 'I';
    } else {
      var s := name + w;
      assert s[..|s| - 1] == name + w[..|w| - 1];
      TrimmedName(name, w[..|w| - 1]);
    }
  }

  /** The first line of a text that starts with `p` (no newline in it, not ending in a
      carriage return) starts with `p`. */
  lemma FirstLine(p: string, t: string)
    requires p != [] && '\n' !in p && p[|p| - 1] != '\r'
    ensures |Lines(p + t)| > 0
    ensures |Lines(p + t)[0]| >= |p| && Lines(p + t)[0][..|p|] == p
  {
    var s := p + t;
    assert s[..|p|] == p;
    assert forall j :: 0 <= j < |p| ==> s[j] == p[j] && s[j] != '\n';
    match IndexOf(s, '\n')
    case None =>
    case Some(i) =>
      assert i >= |p|;
      if i == |p| {
        assert s[..i] == p;
      } else {
        assert s[..i][..|p|] == p;
        assert s[..i][|s[..i]| - 1] == s[i - 1];
      }
  }

  /** Trailing whitespace is trimmed no further back than a character that is not whitespace. */
  lemma TrimKeeps(prefix: string, p: string, rest: string) returns (t: string)
    requires p != [] && !IsWhitespace(p[|p| - 1])
    ensures TrimEnd(prefix + p + rest) == prefix + (p + t)
  {
    var maps := prefix + p + rest;
    var trimmed := TrimEnd(maps);
    assert maps[|prefix| + |p| - 1] == p[|p| - 1];
    assert |trimmed| >= |prefix| + |p|;
    t := trimmed[|prefix| + |p|..];
    assert trimmed[..|prefix| + |p|] == maps[..|prefix| + |p|] == prefix + p;
    assert trimmed == trimmed[..|prefix| + |p|] + t;
  }

  /** The fourth line of a text whose first three lines are `l0`, `l1`, `l2`. */
  lemma FourthLine(l0: string, l1: string, l2: string, x: string)
    requires '\n' !in l0 && '\n' !in l1 && '\n' !in l2
    ensures Lines(l0 + "\n" + l1 + "\n" + l2 + "\n" + x) == [StripCr(l0), StripCr(l1), StripCr(l2)] + Lines(x)
  {
    var x2 := l2 + "\n" + x;
    var x1 := l1 + "\n" + x2;
    assert l0 + "\n" + l1 + "\n" + l2 + "\n" + x == l0 + "\n" + x1;
    LinesCons(l0, x1);
    LinesCons(l1, x2);
    LinesCons(l2, x);
  }

  /** A line that starts with a hexadecimal numeral and `-` splits at that `-`. */
  lemma SplitAfterHex(base: nat, line: string)
    requires |line| > |LowerHex(base)| && line[..|LowerHex(base)|] == LowerHex(base)
    requires line[|LowerHex(base)|] == '-'
    ensures SplitOnce(line, '-').Some? && SplitOnce(line, '-').value.0 == LowerHex(base)
  {
    var hex := LowerHex(base);
    assert forall i :: 0 <= i < |hex| ==> line[i] == hex[i] && DigitValue(hex[i], 16).Some?;
    var (a, b) := SplitOnce(line, '-').value;
    assert forall i :: 0 <= i < |a| ==> line[i] == a[i];
    assert line[|a|] == '-';
    assert |a| == |hex|;
    assert a == line[..|hex|];
  }

  /** The load address round trip: a `maps` text whose fourth line starts with an
      address in hex followed by `-` yields that address, provided it is not zero. */
  lemma BaseAddressOfMaps(l0: string, l1: string, l2: string, base: nat, rest: string)
    requires '\n' !in l0 && '\n' !in l1 && '\n' !in l2
    requires base < Memory.UsizeModulus
    ensures BaseAddress(l0 + "\n" + l1 + "\n" + l2 + "\n" + LowerHex(base) + "-" + rest) ==
            if base == 0 then Err(NoBaseAddress) else Ok(base)
  {
    var hex := LowerHex(base);
    var p := hex + "-";
    assert '\n' !in p by {
      assert forall i :: 0 <= i < |hex| ==> DigitValue(hex[i], 16).Some?;
    }
    var prefix := l0 + "\n" + l1 + "\n" + l2 + "\n";
    var maps := l0 + "\n" + l1 + "\n" + l2 + "\n" + LowerHex(base) + "-" + rest;
    assert maps == prefix + p + rest;
    var t := TrimKeeps(prefix, p, rest);
    FourthLine(l0, l1, l2, p + t);
    assert TrimEnd(maps) == l0 + "\n" + l1 + "\n" + l2 + "\n" + (p + t);
    FirstLine(p, t);
    var line := Lines(TrimEnd(maps))[3];
    assert line == Lines(p + t)[0];
    assert line[..|hex|] == hex && line[|hex|] == '-' by {
      assert line[..|p|][..|hex|] == hex;
    }
    SplitAfterHex(base, line);
    ParseFormat(base, 16, Memory.UsizeModulus);
  }
}
