/** The consensus write-ahead log: one file per save, named by its timestamp and holding a 32-byte checksum
    followed by the saved info. A crash may stop a save between any two file operations. */
module Wal {
  import opened ChainTypes

  type Files = map<nat, Bytes>

  const DIGEST_LEN: nat := 32

  datatype LoadResult =
    | Loaded(info: Bytes)
    | NoWalFile
    | Spins

  /** A digest of fixed length. */
  ghost predicate DigestOk(digest: Bytes -> Bytes) {
    forall b :: |digest(b)| == DIGEST_LEN
  }

  function Content(digest: Bytes -> Bytes, info: Bytes): Bytes {
    digest(info) + info
  }

  predicate Intact(digest: Bytes -> Bytes, file: Bytes)
    requires |file| >= DIGEST_LEN
  {
    file[..DIGEST_LEN] == digest(file[DIGEST_LEN..])
  }

  ghost predicate IsMax(names: set<nat>, t: nat) {
    t in names && forall n :: n in names ==> n <= t
  }

  lemma {:induction false} MaxExists(names: set<nat>)
    requires names != {}
    ensures exists t :: IsMax(names, t)
    decreases names
  {
    var n :| n in names;
    if names == {n} {
      assert IsMax(names, n);
    } else {
      var rest := names - {n};
      assert names == rest + {n};
      MaxExists(rest);
      var t :| IsMax(rest, t);
      assert IsMax(names, if t < n then n else t);
    }
  }

  ghost function Newest(names: set<nat>): (t: nat)
    requires names != {}
    ensures IsMax(names, t)
  {
    MaxExists(names);
    var t :| IsMax(names, t);
    t
  }

  /** What loading gives, newest file first. A file too short for a checksum stops the search for good,
      because the source retries the same index. */
  ghost function Load(digest: Bytes -> Bytes, files: Files): LoadResult
    decreases |files|
  {
    if files.Keys == {} then NoWalFile
    else
      var t := Newest(files.Keys);
      if |files[t]| < DIGEST_LEN then Spins
      else if Intact(digest, files[t]) then Loaded(files[t][DIGEST_LEN..])
      else
        RemoveShrinks(files, t);
        Load(digest, files - {t})
  }

  lemma RemoveShrinks(files: Files, t: nat)
    requires t in files
    ensures (files - {t}).Keys == files.Keys - {t} && |files - {t}| == |files| - 1
  {
    assert (files - {t}).Keys == files.Keys - {t};
    assert |(files - {t}).Keys| == |files.Keys| - 1;
  }

  // ---------------------------------------------------------------- the loop of load_overlord_wal

  ghost predicate Descending(names: seq<nat>) {
    forall i, j :: 0 <= i < j < |names| ==> names[i] > names[j]
  }

  method SortNames(files: Files) returns (names: seq<nat>)
    ensures Descending(names) && (forall n :: n in names <==> n in files)
  {
    names := [];
    var rest := files.Keys;
    while rest != {}
      invariant Descending(names) && rest <= files.Keys
      invariant forall n :: n in files <==> n in names || n in rest
      invariant forall i, n :: 0 <= i < |names| && n in rest ==> names[i] > n
      decreases rest
    {
      var t :| t in rest;
      var others := rest - {t};
      while others != {}
        invariant t in rest && others <= rest
        invariant forall n :: n in rest && n !in others ==> n <= t
        decreases others
      {
        var n :| n in others;
        if n > t { t := n; }
        others := others - {n};
      }
      names := names + [t];
      rest := rest - {t};
    }
  }

  /** With the names before `index` gone, the name at `index` is the newest. */
  lemma HeadIsMax(rest: Files, names: seq<nat>, index: nat)
    requires Descending(names) && index < |names|
    requires forall n :: n in rest ==> n in names
    requires forall j :: 0 <= j < |names| ==> (names[j] in rest <==> index <= j)
    ensures IsMax(rest.Keys, names[index])
  {
    forall n | n in rest ensures n <= names[index] {
      var j :| 0 <= j < |names| && names[j] == n;
    }
  }

  datatype Turn = Stop(r: LoadResult) | Again(index: nat)

  /** One turn of the source's loop. */
  function LoopTurn(digest: Bytes -> Bytes, files: Files, names: seq<nat>, index: nat): Turn
    requires forall n :: n in names ==> n in files
  {
    if index >= |names| then Stop(NoWalFile)
    else
      var file := files[names[index]];
      if |file| < DIGEST_LEN then Again(index)
      else if Intact(digest, file) then Stop(Loaded(file[DIGEST_LEN..]))
      else Again(index + 1)
  }

  function Turns(digest: Bytes -> Bytes, files: Files, names: seq<nat>, index: nat, count: nat): Turn
    requires forall n :: n in names ==> n in files
    decreases count
  {
    if count == 0 then Again(index)
    else match LoopTurn(digest, files, names, index)
      case Stop(r) => Stop(r)
      case Again(next) => Turns(digest, files, names, next, count - 1)
  }

  /** A short file is read again and again: no number of turns gets past it. */
  lemma {:induction false} ShortFileSpins(digest: Bytes -> Bytes, files: Files, names: seq<nat>, index: nat, count: nat)
    requires forall n :: n in names ==> n in files
    requires index < |names| && |files[names[index]]| < DIGEST_LEN
    ensures Turns(digest, files, names, index, count) == Again(index)
    decreases count
  {
    if count > 0 {
      ShortFileSpins(digest, files, names, index, count - 1);
    }
  }

  ghost predicate Lists(files: Files, names: seq<nat>) {
    Descending(names) && forall n :: n in names <==> n in files
  }

  /** The rest of a listing lists the rest of the files, and its head is the newest. */
  lemma ListsTail(files: Files, names: seq<nat>)
    requires Lists(files, names) && names != []
    ensures names[0] in files && IsMax(files.Keys, names[0]) && Newest(files.Keys) == names[0]
    ensures Lists(files - {names[0]}, names[1..])
  {
    assert names[0] in names;
    forall n | n in files ensures n <= names[0] {
      assert n in names;
    }
    forall n ensures n in names[1..] <==> n in files - {names[0]} {
      if n in files - {names[0]} { assert n in names; }
    }
  }

  lemma LoadNothing(digest: Bytes -> Bytes, files: Files, names: seq<nat>)
    requires Lists(files, names) && names == []
    ensures Load(digest, files) == NoWalFile
  {
    assert files.Keys == {};
  }

  /** The source's loop stops with `Load`'s answer, or never stops. */
  lemma {:induction false} LoopMatchesLoad(digest: Bytes -> Bytes, files: Files, names: seq<nat>, count: nat)
    requires Lists(files, names)
    ensures Load(digest, files) != Spins && count > |names| ==>
              Turns(digest, files, names, 0, count) == Stop(Load(digest, files))
    ensures Load(digest, files) == Spins ==> Turns(digest, files, names, 0, count).Again?
    decreases |names|
  {
    hide Load, Intact, Descending;
    if names == [] {
      LoadNothing(digest, files, names);
    } else if count > 0 {
      ListsTail(files, names);
      LoadNewest(digest, files, names[0]);
      if |files[names[0]]| < DIGEST_LEN {
        ShortFileSpins(digest, files, names, 0, count);
      } else if !Intact(digest, files[names[0]]) {
        assert Turns(digest, files, names, 0, count) == Turns(digest, files, names, 1, count - 1);
        hide Turns;
        LoopMatchesLoad(digest, files - {names[0]}, names[1..], count - 1);
        ShiftedTurns(digest, files, names, 0, count - 1);
      }
    }
  }

  /** Dropping the first file shifts the loop by one index. */
  lemma {:induction false} ShiftedTurns(digest: Bytes -> Bytes, files: Files, names: seq<nat>, index: nat, count: nat)
    requires Lists(files, names) && names != []
    requires forall n :: n in names[1..] ==> n in files - {names[0]}
    ensures match Turns(digest, files - {names[0]}, names[1..], index, count)
            case Stop(r) => Turns(digest, files, names, index + 1, count) == Stop(r)
            case Again(i) => Turns(digest, files, names, index + 1, count) == Again(i + 1)
    decreases count
  {
    if count > 0 {
      match LoopTurn(digest, files - {names[0]}, names[1..], index)
      case Stop(_) =>
      case Again(next) => ShiftedTurns(digest, files, names, next, count - 1);
    }
  }

  // ---------------------------------------------------------------- facts about Load

  ghost function Above(files: Files, t: nat): Files {
    map n | n in files && n > t :: files[n]
  }

  ghost function Upto(files: Files, t: nat): Files {
    map n | n in files && n <= t :: files[n]
  }

  /** The newer files answer first. */
  lemma {:induction false} LoadSplit(digest: Bytes -> Bytes, files: Files, t: nat)
    ensures Load(digest, files) ==
            if Load(digest, Above(files, t)) == NoWalFile then Load(digest, Upto(files, t))
            else Load(digest, Above(files, t))
    decreases |files|
  {
    if files.Keys == {} {
      assert Above(files, t).Keys == {} && Upto(files, t).Keys == {};
    } else {
      var m := Newest(files.Keys);
      if m <= t {
        assert Above(files, t).Keys == {};
        assert Upto(files, t) == files;
      } else {
        var above := Above(files, t);
        assert m in above;
        assert IsMax(above.Keys, m);
        assert Newest(above.Keys) == m;
        RemoveShrinks(files, m);
        RemoveShrinks(above, m);
        LoadSplit(digest, files - {m}, t);
        assert Above(files - {m}, t) == above - {m};
        assert Upto(files - {m}, t) == Upto(files, t);
      }
    }
  }

  /** A short file that is met because every newer file is passed over. */
  ghost predicate Blocks(digest: Bytes -> Bytes, files: Files, n: nat) {
    && n in files && |files[n]| < DIGEST_LEN
    && forall m :: m in files && m > n ==> |files[m]| >= DIGEST_LEN && !Intact(digest, files[m])
  }

  /** A newest file that is long and damaged makes no difference. */
  lemma PassedOver(digest: Bytes -> Bytes, files: Files, t: nat, n: nat)
    requires IsMax(files.Keys, t) && |files[t]| >= DIGEST_LEN && !Intact(digest, files[t])
    ensures Blocks(digest, files, n) <==> Blocks(digest, files - {t}, n)
  {
    var rest := files - {t};
    assert forall m :: m in rest ==> m in files && rest[m] == files[m];
    if Blocks(digest, rest, n) {
      forall m | m in files && m > n
        ensures |files[m]| >= DIGEST_LEN && !Intact(digest, files[m])
      {
        assert m == t || m in rest;
      }
    }
  }

  /** For any directory: loading never stops if and only if some short file has only long and damaged files
      above it. */
  lemma {:induction false} SpinsIff(digest: Bytes -> Bytes, files: Files)
    ensures Load(digest, files) == Spins <==> exists n :: Blocks(digest, files, n)
    decreases |files|
  {
    if files.Keys != {} {
      var t := Newest(files.Keys);
      var rest := files - {t};
      RemoveShrinks(files, t);
      SpinsIff(digest, rest);
      if |files[t]| < DIGEST_LEN {
        assert Blocks(digest, files, t);
      } else if !Intact(digest, files[t]) {
        forall n
          ensures Blocks(digest, files, n) <==> Blocks(digest, rest, n)
        {
          PassedOver(digest, files, t, n);
        }
      }
    }
  }

  lemma LoadNewest(digest: Bytes -> Bytes, files: Files, t: nat)
    requires IsMax(files.Keys, t)
    ensures Load(digest, files) ==
            if |files[t]| < DIGEST_LEN then Spins
            else if Intact(digest, files[t]) then Loaded(files[t][DIGEST_LEN..])
            else Load(digest, files - {t})
  {
    assert Newest(files.Keys) == t;
  }

  lemma NothingToLoad(digest: Bytes -> Bytes, files: Files)
    requires files.Keys == {}
    ensures Load(digest, files) == NoWalFile
  {
  }

  // ---------------------------------------------------------------- saving, and crashing while saving

  datatype FileOp = Create(name: nat) | Append(name: nat, part: Bytes) | Delete(name: nat)

  function Do(files: Files, op: FileOp): Files {
    match op
    case Create(t) => files[t := []]
    case Append(t, part) => if t in files then files[t := files[t] + part] else files
    case Delete(t) => files - {t}
  }

  function DoAll(files: Files, ops: seq<FileOp>): Files {
    if ops == [] then files else Do(DoAll(files, ops[..|ops| - 1]), ops[|ops| - 1])
  }

  function Concat(parts: seq<Bytes>): Bytes {
    if parts == [] then [] else Concat(parts[..|parts| - 1]) + parts[|parts| - 1]
  }

  /** The operations of `update_overlord_wal`: create the file, write it in any number of parts, then delete
      older files in any order. */
  function Program(t: nat, parts: seq<Bytes>, older: seq<nat>): seq<FileOp> {
    [Create(t)] + seq(|parts|, i requires 0 <= i < |parts| => Append(t, parts[i]))
    + seq(|older|, i requires 0 <= i < |older| => Delete(older[i]))
  }

  ghost predicate OlderNames(files: Files, t: nat, older: seq<nat>) {
    forall n :: n in older <==> n in files && n < t
  }

  /** The directory after `count` operations of a save. */
  function Crashed(files: Files, t: nat, parts: seq<Bytes>, older: seq<nat>, count: nat): Files
    requires count <= |Program(t, parts, older)|
  {
    DoAll(files, Program(t, parts, older)[..count])
  }

  /** What can be on disk: the file absent, a prefix of the content, or the content with some older files gone. */
  ghost predicate CrashShape(files: Files, t: nat, content: Bytes, older: seq<nat>, disk: Files) {
    || disk == files
    || (exists k :: 0 <= k <= |content| && disk == files[t := content[..k]])
    || (exists k :: 0 <= k <= |older| && disk == files[t := content] - Names(older[..k]))
  }

  ghost function Names(s: seq<nat>): set<nat> {
    set i | 0 <= i < |s| :: s[i]
  }

  lemma DoAllStep(files: Files, ops: seq<FileOp>, count: nat)
    requires 0 < count <= |ops|
    ensures DoAll(files, ops[..count]) == Do(DoAll(files, ops[..count - 1]), ops[count - 1])
  {
    assert ops[..count][..count - 1] == ops[..count - 1];
  }

  lemma {:induction false} WritingShape(files: Files, t: nat, parts: seq<Bytes>, older: seq<nat>, k: nat)
    requires k <= |parts|
    ensures Crashed(files, t, parts, older, k + 1) == files[t := Concat(parts[..k])]
  {
    var ops := Program(t, parts, older);
    DoAllStep(files, ops, k + 1);
    if k == 0 {
      assert ops[..0] == [];
    } else {
      WritingShape(files, t, parts, older, k - 1);
      assert parts[..k][..k - 1] == parts[..k - 1];
      assert ops[k] == Append(t, parts[k - 1]);
    }
  }

  lemma {:induction false} DeletingShape(files: Files, t: nat, parts: seq<Bytes>, older: seq<nat>, k: nat)
    requires k <= |older|
    ensures Crashed(files, t, parts, older, 1 + |parts| + k) == files[t := Concat(parts)] - Names(older[..k])
  {
    var ops := Program(t, parts, older);
    if k == 0 {
      WritingShape(files, t, parts, older, |parts|);
      assert parts[..|parts|] == parts;
    } else {
      DeletingShape(files, t, parts, older, k - 1);
      DoAllStep(files, ops, 1 + |parts| + k);
      assert ops[|parts| + k] == Delete(older[k - 1]);
      assert Names(older[..k]) == Names(older[..k - 1]) + {older[k - 1]};
    }
  }

  lemma {:induction false} ConcatPrefix(parts: seq<Bytes>, k: nat)
    requires k <= |parts|
    ensures |Concat(parts[..k])| <= |Concat(parts)| && Concat(parts[..k]) == Concat(parts)[..|Concat(parts[..k])|]
    decreases |parts|
  {
    if k == |parts| {
      assert parts[..k] == parts;
    } else {
      assert parts[..|parts| - 1][..k] == parts[..k];
      ConcatPrefix(parts[..|parts| - 1], k);
    }
  }

  lemma CrashedShape(files: Files, t: nat, parts: seq<Bytes>, older: seq<nat>, count: nat)
    requires count <= |Program(t, parts, older)|
    ensures CrashShape(files, t, Concat(parts), older, Crashed(files, t, parts, older, count))
  {
    if count == 0 {
      assert Program(t, parts, older)[..0] == [];
    } else if count <= |parts| + 1 {
      WritingShape(files, t, parts, older, count - 1);
      ConcatPrefix(parts, count - 1);
    } else {
      DeletingShape(files, t, parts, older, count - 1 - |parts|);
    }
  }

  /** No shortened form of the info has the info's checksum. */
  ghost predicate PrefixFree(digest: Bytes -> Bytes, info: Bytes) {
    forall k :: 0 <= k < |info| ==> digest(info[..k]) != digest(info)
  }

  lemma TornFileNotIntact(digest: Bytes -> Bytes, info: Bytes, k: nat)
    requires DigestOk(digest) && PrefixFree(digest, info) && DIGEST_LEN <= k <= |Content(digest, info)|
    ensures Intact(digest, Content(digest, info)[..k]) <==> k == |Content(digest, info)|
  {
    var file := Content(digest, info)[..k];
    assert file[..DIGEST_LEN] == digest(info);
    assert file[DIGEST_LEN..] == info[..k - DIGEST_LEN];
    assert info[..|info|] == info;
  }

  ghost predicate Complete(digest: Bytes -> Bytes, disk: Files, t: nat, info: Bytes) {
    t in disk && disk[t] == Content(digest, info)
  }

  /** Crash safety. The new name is the newest; the directory may hold anything else. At every crash point
      loading gives the new info once the write is complete, never stops while the new file is shorter than a
      digest, and gives the old answer otherwise. */
  lemma CrashSafety(digest: Bytes -> Bytes, files: Files, t: nat, info: Bytes, parts: seq<Bytes>, older: seq<nat>,
                    count: nat)
    requires DigestOk(digest) && PrefixFree(digest, info) && forall n :: n in files ==> n < t
    requires Concat(parts) == Content(digest, info) && OlderNames(files, t, older)
    requires count <= |Program(t, parts, older)|
    ensures
      var disk := Crashed(files, t, parts, older, count);
      Load(digest, disk) ==
      if Complete(digest, disk, t, info) then Loaded(info)
      else if t in disk && |disk[t]| < DIGEST_LEN then Spins
      else Load(digest, files)
  {
    var disk := Crashed(files, t, parts, older, count);
    var content := Content(digest, info);
    CrashedShape(files, t, parts, older, count);
    if disk != files {
      assert IsMax(disk.Keys, t);
      LoadNewest(digest, disk, t);
      assert exists k :: 0 <= k <= |content| && disk[t] == content[..k] by {
        assert content[..|content|] == content;
      }
      var k :| 0 <= k <= |content| && disk[t] == content[..k];
      if k >= DIGEST_LEN {
        TornFileNotIntact(digest, info, k);
        if k == |content| {
          assert content[..k] == content;
          assert content[DIGEST_LEN..] == info;
        } else {
          assert disk[t] != content;
          assert disk - {t} == files by {
            assert disk == files[t := content[..k]];
          }
        }
      }
    }
  }

  // ---------------------------------------------------------------- whole histories

  /** A save attempt and the number of file operations it got through. */
  datatype Save = Save(t: nat, info: Bytes, parts: seq<Bytes>, older: seq<nat>, count: nat)

  ghost function After(digest: Bytes -> Bytes, saves: seq<Save>): Files
    requires forall s :: s in saves ==> s.count <= |Program(s.t, s.parts, s.older)|
  {
    if saves == [] then map[]
    else
      var s := saves[|saves| - 1];
      Crashed(After(digest, saves[..|saves| - 1]), s.t, s.parts, s.older, s.count)
  }

  ghost predicate SaveOk(digest: Bytes -> Bytes, files: Files, s: Save) {
    && PrefixFree(digest, s.info) && Concat(s.parts) == Content(digest, s.info) && OlderNames(files, s.t, s.older)
    && s.count <= |Program(s.t, s.parts, s.older)|
  }

  /** Each attempt has a later timestamp than all before; it may crash anywhere. */
  ghost predicate History(digest: Bytes -> Bytes, saves: seq<Save>) {
    && (forall i, j :: 0 <= i < j < |saves| ==> saves[i].t < saves[j].t)
    && (forall s :: s in saves ==> s.count <= |Program(s.t, s.parts, s.older)|)
    && (forall i :: 0 <= i < |saves| ==> SaveOk(digest, After(digest, saves[..i]), saves[i]))
  }

  /** What a history leaves to be loaded: an attempt that completes its write supersedes everything before it, one
      that stops inside its first 32 bytes blocks loading, and any other one changes nothing. */
  ghost function Expected(digest: Bytes -> Bytes, saves: seq<Save>): LoadResult
    requires forall s :: s in saves ==> s.count <= |Program(s.t, s.parts, s.older)|
  {
    if saves == [] then NoWalFile
    else
      var s := saves[|saves| - 1];
      var disk := After(digest, saves);
      if Complete(digest, disk, s.t, s.info) then Loaded(s.info)
      else if s.t in disk && |disk[s.t]| < DIGEST_LEN then Spins
      else Expected(digest, saves[..|saves| - 1])
  }

  lemma HistoryFront(digest: Bytes -> Bytes, saves: seq<Save>)
    requires History(digest, saves) && saves != []
    ensures History(digest, saves[..|saves| - 1])
    ensures SaveOk(digest, After(digest, saves[..|saves| - 1]), saves[|saves| - 1])
  {
    hide After, SaveOk;
    var front := saves[..|saves| - 1];
    forall i | 0 <= i < |front| ensures SaveOk(digest, After(digest, front[..i]), front[i]) {
      assert front[..i] == saves[..i];
      assert SaveOk(digest, After(digest, saves[..i]), saves[i]);
    }
    assert SaveOk(digest, After(digest, saves[..|saves| - 1]), saves[|saves| - 1]);
  }

  ghost predicate Stamped(files: Files, saves: seq<Save>) {
    forall n :: n in files ==> exists i :: 0 <= i < |saves| && saves[i].t == n
  }

  /** A save attempt adds no file but its own, and keeps the others as they are. */
  lemma CrashedNames(files: Files, s: Save)
    requires s.count <= |Program(s.t, s.parts, s.older)|
    ensures
      var disk := Crashed(files, s.t, s.parts, s.older, s.count);
      forall n :: n in disk && n != s.t ==> n in files && disk[n] == files[n]
  {
    CrashedShape(files, s.t, s.parts, s.older, s.count);
  }

  /** After any history of saves and crashes. */
  lemma {:induction false} HistoryLoads(digest: Bytes -> Bytes, saves: seq<Save>)
    requires DigestOk(digest) && History(digest, saves)
    ensures Load(digest, After(digest, saves)) == Expected(digest, saves)
    ensures Stamped(After(digest, saves), saves)
  {
    if saves != [] {
      hide Load, Crashed, SaveOk;
      var front, s := saves[..|saves| - 1], saves[|saves| - 1];
      HistoryFront(digest, saves);
      HistoryLoads(digest, front);
      var files := After(digest, front);
      forall n | n in files ensures n < s.t {
        var i :| 0 <= i < |front| && front[i].t == n;
        assert saves[i].t < saves[|saves| - 1].t;
      }
      LastAttempt(digest, files, s);
      StampedGrows(files, After(digest, saves), saves);
    }
  }

  lemma LastAttempt(digest: Bytes -> Bytes, files: Files, s: Save)
    requires DigestOk(digest) && SaveOk(digest, files, s) && forall n :: n in files ==> n < s.t
    ensures
      var disk := Crashed(files, s.t, s.parts, s.older, s.count);
      && (forall n :: n in disk ==> n in files || n == s.t)
      && Load(digest, disk) ==
         if Complete(digest, disk, s.t, s.info) then Loaded(s.info)
         else if s.t in disk && |disk[s.t]| < DIGEST_LEN then Spins
         else Load(digest, files)
  {
    hide Load, Crashed;
    CrashSafety(digest, files, s.t, s.info, s.parts, s.older, s.count);
    CrashedNames(files, s);
  }

  /** A completed write recovers: whatever the attempts before it left behind, its info is what loads. */
  lemma CompletedWriteRecovers(digest: Bytes -> Bytes, saves: seq<Save>)
    requires DigestOk(digest) && History(digest, saves) && saves != []
    requires Complete(digest, After(digest, saves), saves[|saves| - 1].t, saves[|saves| - 1].info)
    ensures Load(digest, After(digest, saves)) == Loaded(saves[|saves| - 1].info)
  {
    hide Load, After;
    HistoryLoads(digest, saves);
  }

  lemma StampedGrows(files: Files, disk: Files, saves: seq<Save>)
    requires saves != [] && Stamped(files, saves[..|saves| - 1])
    requires forall n :: n in disk ==> n in files || n == saves[|saves| - 1].t
    ensures Stamped(disk, saves)
  {
    forall n | n in disk ensures exists i :: 0 <= i < |saves| && saves[i].t == n {
      if n in files {
        var i :| 0 <= i < |saves| - 1 && saves[..|saves| - 1][i].t == n;
        assert saves[i].t == n;
      }
    }
  }

  // ---------------------------------------------------------------- a clock that steps back

  /** A finished save under any unused name, not only the newest one. */
  ghost function Saved(digest: Bytes -> Bytes, files: Files, t: nat, info: Bytes): Files {
    map n | n in files.Keys + {t} && n >= t :: if n == t then Content(digest, info) else files[n]
  }

  lemma DeletingOlder(digest: Bytes -> Bytes, files: Files, t: nat, info: Bytes, older: seq<nat>)
    requires OlderNames(files, t, older) && t !in files
    ensures files[t := Content(digest, info)] - Names(older) == Saved(digest, files, t, info)
  {
    hide Content;
    forall n
      ensures n in Names(older) <==> n in files && n < t
    {
      assert n in Names(older) <==> n in older;
    }
  }

  /** Running all operations of a save is the same as `Saved`. */
  lemma FinishedSave(digest: Bytes -> Bytes, files: Files, t: nat, info: Bytes, parts: seq<Bytes>, older: seq<nat>)
    requires Concat(parts) == Content(digest, info) && OlderNames(files, t, older) && t !in files
    ensures |Program(t, parts, older)| == 1 + |parts| + |older|
    ensures Crashed(files, t, parts, older, 1 + |parts| + |older|) == Saved(digest, files, t, info)
  {
    hide Crashed, Concat, Content, Saved, OlderNames;
    DeletingShape(files, t, parts, older, |older|);
    assert older[..|older|] == older;
    DeletingOlder(digest, files, t, info, older);
  }

  /** The finished save is what loading gives exactly when the files with later names offer nothing else. */
  lemma SaveVisibleIff(digest: Bytes -> Bytes, files: Files, t: nat, info: Bytes)
    requires DigestOk(digest) && t !in files
    ensures Load(digest, Saved(digest, files, t, info)) == Loaded(info) <==>
            Load(digest, Above(files, t)) in {NoWalFile, Loaded(info)}
  {
    var saved := Saved(digest, files, t, info);
    LoadSplit(digest, saved, t);
    assert Above(saved, t) == Above(files, t);
    var low := Upto(saved, t);
    assert low.Keys == {t} && low[t] == Content(digest, info);
    LoadNewest(digest, low, t);
    assert Content(digest, info)[..DIGEST_LEN] == digest(info);
    assert Content(digest, info)[DIGEST_LEN..] == info;
  }

  // ---------------------------------------------------------------- the object

  class ConsensusWal {
    const digest: Bytes -> Bytes
    var files: Files

    constructor (digest: Bytes -> Bytes)
      ensures this.digest == digest && files == map[]
    {
      this.digest := digest;
      files := map[];
    }

    /** `timestamp` is the first clock reading that names no existing file. */
    method UpdateOverlordWal(info: Bytes, timestamp: nat)
      requires timestamp !in files
      modifies this
      ensures files == Saved(digest, old(files), timestamp, info)
    {
      files := files[timestamp := []];
      files := files[timestamp := digest(info) + info];
      ghost var written := files;
      var listing := files.Keys;
      while listing != {}
        invariant listing <= written.Keys
        invariant forall n :: n in files <==> n in written && (n in listing || n >= timestamp)
        invariant forall n :: n in files ==> files[n] == written[n]
        decreases listing
      {
        var n :| n in listing;
        if n < timestamp {
          files := files - {n};
        }
        listing := listing - {n};
      }
    }

    method LoadOverlordWal() returns (r: LoadResult)
      ensures r == Load(digest, files)
    {
      hide Load, Intact;
      var names := SortNames(files);
      var index := 0;
      ghost var rest := files;
      while index < |names|
        invariant 0 <= index <= |names|
        invariant Load(digest, files) == Load(digest, rest)
        invariant forall j :: 0 <= j < |names| ==> (names[j] in rest <==> index <= j)
        invariant forall n :: n in rest ==> n in files && rest[n] == files[n]
      {
        var t := names[index];
        HeadIsMax(rest, names, index);
        LoadNewest(digest, rest, t);
        var file := files[t];
        if |file| < DIGEST_LEN {
          return Spins;
        }
        if Intact(digest, file) {
          return Loaded(file[DIGEST_LEN..]);
        }
        rest := rest - {t};
        index := index + 1;
      }
      assert rest.Keys == {} by {
        forall n | n in files ensures n !in rest {
          assert n in names;
        }
      }
      NothingToLoad(digest, rest);
      return NoWalFile;
    }
  }
}
