/**
   Installing a credential file: temporary file, write, sync, chmod, rename, and cleanup on error.

   The disk is the sequence of all states it has been in, and changes only by growing, so "the
   process may stop at any point" is a statement about that sequence; every system call may fail,
   as `Faults` says.
 */
module CredentialStore {
  import opened Common

  /** The twelve permission bits. */
  type Mode = bv12

  /** `synced` and `syncedMode` tell what of a file has reached stable storage. */
  datatype Node = Directory | File(content: seq<bv8>, mode: Mode, synced: bool, syncedMode: Mode)

  datatype Path = Path(dir: string, name: string)

  type Tree = map<Path, Node>

  /** Which calls fail, how writes are cut up, and what another process puts at the temporary path. */
  datatype Faults = Faults(
    createDir: bool, open: bool, write: bool, sync: bool, chmod: bool, rename: bool, remove: bool,
    chunks: seq<nat>, intruder: Option<Node>)

  datatype Error = NoParent | NoFileName | NoTempName | CreateDir | Open | Write | Sync | Chmod | Rename

  datatype Outcome = Installed | Failed(error: Error)

  /** Errors that come before a temporary name is chosen. */
  predicate Early(e: Error) {
    e.NoParent? || e.NoFileName? || e.NoTempName? || e.CreateDir?
  }

  predicate IsDirectory(s: Tree, p: Path) {
    p in s && s[p].Directory?
  }

  // ---------------------------------------------------------------- temporary names

  function Digit(d: nat): char
    requires d < 10
  {
    '0' + d as char
  }

  function Decimal(n: nat): string {
    if n < 10 then [Digit(n)] else Decimal(n / 10) + [Digit(n % 10)]
  }

  const ATTEMPTS: nat := 64

  /** Process id, clock reading and attempt number, separated by dashes. */
  function TempTail(pid: nat, nanos: nat, attempt: nat): string {
    Decimal(pid) + ("-" + (Decimal(nanos) + ("-" + (Decimal(attempt) + ".tmp"))))
  }

  function TempName(name: string, pid: nat, nanos: nat, attempt: nat): string {
    "." + name + ".klights-credential-" + TempTail(pid, nanos, attempt)
  }

  predicate AllDigits(s: string) {
    forall i :: 0 <= i < |s| ==> '0' <= s[i] <= '9'
  }

  lemma {:induction false} DecimalDigits(n: nat)
    ensures AllDigits(Decimal(n)) && |Decimal(n)| > 0
    decreases n
  {
    if n >= 10 { DecimalDigits(n / 10); }
  }

  lemma {:induction false} DecimalInjective(m: nat, n: nat)
    requires Decimal(m) == Decimal(n)
    ensures m == n
    decreases m
  {
    DecimalDigits(m / 10);
    DecimalDigits(n / 10);
    var a, b := Decimal(m), Decimal(n);
    assert a[|a| - 1] == Digit(m % 10) && b[|b| - 1] == Digit(n % 10);
    if m >= 10 && n >= 10 {
      assert a[..|a| - 1] == Decimal(m / 10) && b[..|b| - 1] == Decimal(n / 10);
      DecimalInjective(m / 10, n / 10);
    }
  }

  predicate StartsOtherwise(s: string) {
    s != [] && !('0' <= s[0] <= '9')
  }

  function LeadingDigits(s: string): nat {
    if s == [] || StartsOtherwise(s) then 0 else 1 + LeadingDigits(s[1..])
  }

  lemma {:induction false} LeadingDigitsStop(a: string, s: string)
    requires AllDigits(a) && StartsOtherwise(s)
    ensures LeadingDigits(a + s) == |a|
  {
    if a == [] {
      assert a + s == s;
    } else {
      LeadingDigitsStop(a[1..], s);
      assert (a + s)[1..] == a[1..] + s;
    }
  }

  /** A decimal number followed by anything but a digit is read back exactly. */
  lemma NumberReadsBack(m: nat, s: string, n: nat, t: string)
    requires StartsOtherwise(s) && StartsOtherwise(t) && Decimal(m) + s == Decimal(n) + t
    ensures m == n && s == t
  {
    var a, b := Decimal(m), Decimal(n);
    DecimalDigits(m);
    DecimalDigits(n);
    LeadingDigitsStop(a, s);
    LeadingDigitsStop(b, t);
    assert a == (a + s)[..|a|] && b == (b + t)[..|a|];
    assert s == (a + s)[|a|..] && t == (b + t)[|a|..];
    DecimalInjective(m, n);
  }

  lemma TempTailReadsBack(pid: nat, nanos: nat, k: nat, pid': nat, nanos': nat, k': nat)
    requires TempTail(pid, nanos, k) == TempTail(pid', nanos', k')
    ensures pid == pid' && nanos == nanos' && k == k'
  {
    var t, t' := "-" + (Decimal(k) + ".tmp"), "-" + (Decimal(k') + ".tmp");
    var s, s' := "-" + (Decimal(nanos) + t), "-" + (Decimal(nanos') + t');
    NumberReadsBack(pid, s, pid', s');
    assert s[1..] == Decimal(nanos) + t && s'[1..] == Decimal(nanos') + t';
    NumberReadsBack(nanos, t, nanos', t');
    assert t[1..] == Decimal(k) + ".tmp" && t'[1..] == Decimal(k') + ".tmp";
    NumberReadsBack(k, ".tmp", k', ".tmp");
  }

  /** A temporary name is never the destination's, and tells its process, its clock reading and its attempt apart. */
  lemma TempNamesDiffer(name: string, pid: nat, nanos: nat, k: nat, pid': nat, nanos': nat, k': nat)
    ensures TempName(name, pid, nanos, k) != name
    ensures TempName(name, pid, nanos, k) == TempName(name, pid', nanos', k') ==>
              pid == pid' && nanos == nanos' && k == k'
  {
    var head := "." + name + ".klights-credential-";
    var t, t' := TempTail(pid, nanos, k), TempTail(pid', nanos', k');
    assert |head + t| > |name|;
    if head + t == head + t' {
      assert t == (head + t)[|head|..] && t' == (head + t')[|head|..];
      TempTailReadsBack(pid, nanos, k, pid', nanos', k');
    }
  }

  // ---------------------------------------------------------------- what must hold at every moment

  ghost predicate SameAt(s: Tree, t: Tree, p: Path) {
    (p in s <==> p in t) && (p in s ==> s[p] == t[p])
  }

  /** `narrow` grants nothing that `wide` does not. */
  predicate NarrowerOrEqual(narrow: Mode, wide: Mode) {
    narrow & !wide == 0
  }

  /** The destination is whole, old or `complete`, and nothing but it and the temporary file has changed. */
  ghost predicate Safe(s: Tree, before: Tree, dest: Path, tmp: Path, complete: Node) {
    && (forall p :: p != dest && p != tmp ==> SameAt(s, before, p))
    && (SameAt(s, before, dest) || (dest in s && s[dest] == complete))
  }

  /** What may be found at the temporary path: a beginning of the bytes, no more permissive than requested. */
  ghost predicate TempSafe(s: Tree, tmp: Path, bytes: seq<bv8>, mode: Mode, intruder: Option<Node>) {
    tmp in s ==>
      || Some(s[tmp]) == intruder
      || (s[tmp].File? && s[tmp].content <= bytes
          && NarrowerOrEqual(s[tmp].mode, mode) && NarrowerOrEqual(s[tmp].syncedMode, mode))
  }

  /** Only the temporary file differs from `before`: a beginning of the bytes, no more permissive than asked. */
  ghost predicate TempOnly(s: Tree, before: Tree, tmp: Path, bytes: seq<bv8>, mode: Mode) {
    && tmp in s && s == before[tmp := s[tmp]]
    && s[tmp].File? && s[tmp].content <= bytes
    && NarrowerOrEqual(s[tmp].mode, mode) && NarrowerOrEqual(s[tmp].syncedMode, mode)
  }

  lemma TempOnlyIsSafe(s: Tree, before: Tree, dest: Path, tmp: Path, bytes: seq<bv8>, mode: Mode, umask: Mode)
    requires tmp != dest && TempOnly(s, before, tmp, bytes, mode)
    ensures Safe(s, before, dest, tmp, File(bytes, mode, true, mode & !umask)) && TempSafe(s, tmp, bytes, mode, None)
  {
  }

  /** What another process does at the temporary path does not matter to safety. */
  lemma SafeAcross(s: Tree, found: Tree, before: Tree, dest: Path, tmp: Path, complete: Node)
    requires tmp != dest && Safe(s, found, dest, tmp, complete)
    requires found == before || (tmp in found && found == before[tmp := found[tmp]])
    ensures Safe(s, before, dest, tmp, complete)
  {
    assert forall p :: p != tmp ==> SameAt(found, before, p);
    forall p | p != dest && p != tmp ensures SameAt(s, before, p) { assert SameAt(s, found, p); }
  }

  lemma UmaskNarrows(mode: Mode, umask: Mode)
    ensures NarrowerOrEqual(mode & !umask, mode) && NarrowerOrEqual(mode, mode)
  {
  }

  // ---------------------------------------------------------------- the disk and its calls

  /** What is at the temporary path once an installation has failed, and what became of a file that was not ours. */
  ghost predicate TempAfterError(now: Tree, tmp: Path, error: Error, faults: Faults) {
    match faults.intruder
    case None => tmp in now <==> faults.remove && error != Open
    case Some(node) =>
      && error == Open
      && (tmp in now <==> faults.remove || node.Directory?)
      && (tmp in now ==> now[tmp] == node)
  }

  datatype Artifact = CaCertificate | CaKey | ServerCertificate

  /** 0644 for certificates, 0600 for the key. */
  function ArtifactMode(a: Artifact): Mode {
    if a.CaKey? then 0x180 else 0x1A4
  }

  /** All states so far; there is always a present one. */
  type Moments = h: seq<Tree> | h != [] witness [map[]]

  class Disk {
    var moments: Moments

    constructor (tree: Tree)
      ensures moments == [tree]
    {
      moments := [tree];
    }

    /** The present state. */
    function Now(): Tree
      reads this
    {
      moments[|moments| - 1]
    }

    /** Every change to the disk is a new moment. */
    method Become(tree: Tree)
      modifies this
      ensures moments == old(moments) + [tree] && Now() == tree
    {
      moments := moments + [tree];
    }

    /** Every state since `start` was safe, at the destination and at the temporary path. */
    ghost predicate SafeSince(start: nat, before: Tree, dest: Path, tmp: Path,
                              bytes: seq<bv8>, mode: Mode, umask: Mode, intruder: Option<Node>)
      reads this
    {
      forall k :: start <= k < |moments| ==>
        Safe(moments[k], before, dest, tmp, File(bytes, mode, true, mode & !umask))
        && TempSafe(moments[k], tmp, bytes, mode, intruder)
    }

    /** `OpenOptions::create_new` with a mode: the new file gets the mode less the umask. */
    method OpenNew(p: Path, mode: Mode, umask: Mode, fails: bool) returns (ok: bool)
      modifies this
      ensures ok <==> !fails && p !in old(Now())
      ensures moments == old(moments)
                         + if ok then [old(Now())[p := File([], mode & !umask, false, mode & !umask)]] else []
    {
      ok := !fails && p !in Now();
      if ok { Become(Now()[p := File([], mode & !umask, false, mode & !umask)]); }
    }

    /** `write_all`: one system call per chunk; when it fails, some beginning of the bytes has been written. */
    method WriteAll(p: Path, bytes: seq<bv8>, chunks: seq<nat>, fails: bool) returns (ok: bool)
      requires p in Now() && Now()[p].File? && Now()[p].content == [] && !Now()[p].synced
      modifies this
      ensures p in Now() && Now()[p].File? && Now()[p].content <= bytes
      ensures Now() == old(Now())[p := old(Now())[p].(content := Now()[p].content)]
      ensures !fails ==> ok
      ensures ok ==> Now()[p].content == bytes
      ensures old(moments) <= moments
      ensures forall k :: |old(moments)| <= k < |moments| ==>
                exists n: nat :: n <= |bytes| && moments[k] == old(Now())[p := old(Now())[p].(content := bytes[..n])]
    {
      ghost var file, before := Now()[p], Now();
      var done, i := 0, 0;
      while done < |bytes|
        invariant done <= |bytes|
        invariant Now() == before[p := file.(content := bytes[..done])]
        invariant old(moments) <= moments
        invariant forall k :: |old(moments)| <= k < |moments| ==>
                    exists n: nat :: n <= |bytes| && moments[k] == before[p := file.(content := bytes[..n])]
      {
        if fails && i >= |chunks| { return false; }
        var n := if i < |chunks| then Min(Max(chunks[i], 1), |bytes| - done) else |bytes| - done;
        done := done + n;
        Become(Now()[p := Now()[p].(content := bytes[..done])]);
        i := i + 1;
      }
      assert bytes[..done] == bytes;
      ok := true;
    }

    method SyncAll(p: Path, fails: bool) returns (ok: bool)
      requires p in Now() && Now()[p].File?
      modifies this
      ensures ok <==> !fails
      ensures var file := old(Now())[p];
              moments == old(moments)
                         + if ok then [old(Now())[p := file.(synced := true, syncedMode := file.mode)]] else []
    {
      ok := !fails;
      if ok { Become(Now()[p := Now()[p].(synced := true, syncedMode := Now()[p].mode)]); }
    }

    method SetPermissions(p: Path, mode: Mode, fails: bool) returns (ok: bool)
      requires p in Now() && Now()[p].File?
      modifies this
      ensures ok <==> !fails
      ensures moments == old(moments) + if ok then [old(Now())[p := old(Now())[p].(mode := mode)]] else []
    {
      ok := !fails;
      if ok { Become(Now()[p := Now()[p].(mode := mode)]); }
    }

    /** An atomic rename; a file cannot replace a directory. */
    method RenameOver(source: Path, target: Path, fails: bool) returns (ok: bool)
      requires source in Now() && source != target
      modifies this
      ensures ok <==> !fails && !IsDirectory(old(Now()), target)
      ensures moments == old(moments) + if ok then [old(Now())[target := old(Now())[source]] - {source}] else []
    {
      ok := !fails && !IsDirectory(Now(), target);
      if ok { Become(Now()[target := Now()[source]] - {source}); }
    }

    method RemoveFile(p: Path, fails: bool)
      modifies this
      ensures moments == old(moments) + if fails || IsDirectory(old(Now()), p) then [] else [old(Now()) - {p}]
    {
      if !(fails || IsDirectory(Now(), p)) { Become(Now() - {p}); }
    }

    /** The first of 64 candidate names that is free. */
    method CreateTempFilePath(parent: string, name: string, pid: nat, nanos: nat) returns (tmp: Option<Path>)
      ensures tmp.Some? ==>
                exists k: nat :: k < 64 && tmp.value == Path(parent, TempName(name, pid, nanos, k))
                  && tmp.value !in Now()
                  && forall j: nat :: j < k ==> Path(parent, TempName(name, pid, nanos, j)) in Now()
      ensures tmp.None? ==>
                forall k: nat :: k < 64 ==> Path(parent, TempName(name, pid, nanos, k)) in Now()
    {
      for attempt := 0 to ATTEMPTS
        invariant forall j: nat :: j < attempt ==> Path(parent, TempName(name, pid, nanos, j)) in Now()
      {
        var candidate := Path(parent, TempName(name, pid, nanos, attempt));
        if candidate !in Now() { return Some(candidate); }
      }
      return None;
    }

    /** Every state since `start` differs from `before` only by our temporary file. */
    ghost predicate TempOnlySince(start: nat, before: Tree, tmp: Path, bytes: seq<bv8>, mode: Mode)
      reads this
    {
      forall k :: start <= k < |moments| ==> TempOnly(moments[k], before, tmp, bytes, mode)
    }

    /** Create and write the temporary file. */
    method CreateAndWrite(tmp: Path, bytes: seq<bv8>, mode: Mode, umask: Mode, faults: Faults)
      returns (error: Option<Error>)
      modifies this
      ensures tmp in old(Now()) || faults.open ==> error == Some(Open)
      ensures error == Some(Open) ==> moments == old(moments)
      ensures error.Some? ==> !Early(error.value)
      ensures tmp !in old(Now()) && !(faults.open || faults.write) ==> error.None?
      ensures error.None? ==> Now() == old(Now())[tmp := File(bytes, mode & !umask, false, mode & !umask)]
      ensures error != Some(Open) ==>
                tmp !in old(Now()) && tmp in Now() && Now()[tmp].File? && Now() == old(Now())[tmp := Now()[tmp]]
      ensures old(moments) <= moments
      ensures TempOnlySince(|old(moments)|, old(Now()), tmp, bytes, mode)
    {
      UmaskNarrows(mode, umask);
      var ok := OpenNew(tmp, mode, umask, faults.open);
      if !ok { return Some(Open); }
      ok := WriteAll(tmp, bytes, faults.chunks, faults.write);
      if !ok { return Some(Write); }
      return None;
    }

    /** Create, write, sync and chmod the temporary file. */
    method Fill(tmp: Path, bytes: seq<bv8>, mode: Mode, umask: Mode, faults: Faults)
      returns (error: Option<Error>)
      modifies this
      ensures tmp in old(Now()) || faults.open ==> error == Some(Open)
      ensures error == Some(Open) ==> moments == old(moments)
      ensures error.Some? ==> !Early(error.value)
      ensures tmp !in old(Now()) && !faults.open && !faults.write ==>
                error == if faults.sync then Some(Sync) else if faults.chmod then Some(Chmod) else None
      ensures error.None? ==> Now() == old(Now())[tmp := File(bytes, mode, true, mode & !umask)]
      ensures error != Some(Open) ==>
                tmp !in old(Now()) && tmp in Now() && Now()[tmp].File? && Now() == old(Now())[tmp := Now()[tmp]]
      ensures old(moments) <= moments
      ensures TempOnlySince(|old(moments)|, old(Now()), tmp, bytes, mode)
    {
      UmaskNarrows(mode, umask);
      error := CreateAndWrite(tmp, bytes, mode, umask, faults);
      if error.Some? { return; }
      var ok := SyncAll(tmp, faults.sync);
      if !ok { return Some(Sync); }
      ok := SetPermissions(tmp, mode, faults.chmod);
      if !ok { return Some(Chmod); }
    }

    /** Fill and publish the temporary file: the part whose failure is followed by a cleanup. */
    method Publish(dest: Path, tmp: Path, bytes: seq<bv8>, mode: Mode, umask: Mode, faults: Faults)
      returns (error: Option<Error>)
      requires tmp != dest
      modifies this
      ensures error.None? ==> tmp !in old(Now()) && Now() == old(Now())[dest := File(bytes, mode, true, mode & !umask)]
      ensures tmp !in old(Now()) && !faults.open && !faults.write ==>
                error == if faults.sync then Some(Sync) else if faults.chmod then Some(Chmod)
                         else if faults.rename || IsDirectory(old(Now()), dest) then Some(Rename) else None
      ensures error.Some? ==> !Early(error.value)
      ensures tmp in old(Now()) || faults.open ==> error == Some(Open)
      ensures error == Some(Open) ==> moments == old(moments)
      ensures error.Some? && error != Some(Open) ==>
                tmp !in old(Now()) && tmp in Now() && Now()[tmp].File? && Now() == old(Now())[tmp := Now()[tmp]]
      ensures old(moments) <= moments
      ensures SafeSince(|old(moments)|, old(Now()), dest, tmp, bytes, mode, umask, None)
    {
      ghost var before := Now();
      error := Fill(tmp, bytes, mode, umask, faults);
      forall k | |old(moments)| <= k < |moments|
        ensures Safe(moments[k], before, dest, tmp, File(bytes, mode, true, mode & !umask))
                && TempSafe(moments[k], tmp, bytes, mode, None)
      {
        TempOnlyIsSafe(moments[k], before, dest, tmp, bytes, mode, umask);
      }
      if error.Some? { return; }
      var ok := RenameOver(tmp, dest, faults.rename);
      if !ok { return Some(Rename); }
      assert Now() == before[dest := File(bytes, mode, true, mode & !umask)];
    }

    /** What another process does between the look for a free name and the exclusive open. */
    method Interfere(tmp: Path, intruder: Option<Node>)
      modifies this
      ensures moments == old(moments) + if intruder.Some? then [old(Now())[tmp := intruder.value]] else []
    {
      if intruder.Some? { Become(Now()[tmp := intruder.value]); }
    }

    /** What happens at the chosen name before any cleanup: perhaps the other process, then the publishing. */
    method Attempt(dest: Path, tmp: Path, bytes: seq<bv8>, mode: Mode, umask: Mode, faults: Faults)
      returns (error: Option<Error>)
      requires tmp != dest && tmp !in Now()
      modifies this
      ensures old(moments) <= moments
      ensures SafeSince(|old(moments)|, old(Now()), dest, tmp, bytes, mode, umask, faults.intruder)
      ensures error.Some? ==> !Early(error.value)
      ensures error.None? ==>
                Now() == old(Now())[dest := File(bytes, mode, true, mode & !umask)] && faults.intruder.None?
      ensures faults.intruder.Some? || faults.open ==> error == Some(Open)
      ensures faults.intruder.None? && !faults.open && !faults.write ==>
                error == if faults.sync then Some(Sync) else if faults.chmod then Some(Chmod)
                         else if faults.rename || IsDirectory(old(Now()), dest) then Some(Rename) else None
      ensures faults.intruder.Some? ==>
                && |moments| > |old(moments)|
                && Now() == moments[|old(moments)|] == old(Now())[tmp := faults.intruder.value]
      ensures faults.intruder.None? && error == Some(Open) ==> Now() == old(Now())
      ensures faults.intruder.None? && error.Some? && error != Some(Open) ==>
                tmp in Now() && Now()[tmp].File? && Now() == old(Now())[tmp := Now()[tmp]]
    {
      ghost var before := Now();
      Interfere(tmp, faults.intruder);
      ghost var found := Now();
      error := Publish(dest, tmp, bytes, mode, umask, faults);
      forall k | |old(moments)| <= k < |moments|
        ensures Safe(moments[k], before, dest, tmp, File(bytes, mode, true, mode & !umask))
                && TempSafe(moments[k], tmp, bytes, mode, faults.intruder)
      {
        if k > |old(moments)| || faults.intruder.None? {
          SafeAcross(moments[k], found, before, dest, tmp, File(bytes, mode, true, mode & !umask));
        }
      }
    }

    /**
       Once a temporary name is chosen: publish, and clean up on error.  At every moment the
       destination is whole; an error leaves it as it was; success leaves exactly the new file.
     */
    method InstallVia(dest: Path, tmp: Path, bytes: seq<bv8>, mode: Mode, umask: Mode, faults: Faults)
      returns (outcome: Outcome)
      requires tmp != dest && tmp !in Now()
      modifies this
      ensures old(moments) <= moments
      ensures SafeSince(|old(moments)|, old(Now()), dest, tmp, bytes, mode, umask, faults.intruder)
      ensures outcome.Installed? ==>
                Now() == old(Now())[dest := File(bytes, mode, true, mode & !umask)] && faults.intruder.None?
      ensures faults.intruder.Some? || faults.open ==> outcome == Failed(Open)
      ensures faults.intruder.None? && !faults.open && !faults.write ==>
                outcome == if faults.sync then Failed(Sync) else if faults.chmod then Failed(Chmod)
                           else if faults.rename || IsDirectory(old(Now()), dest) then Failed(Rename) else Installed
      ensures outcome.Failed? ==> Now() - {tmp} == old(Now()) && TempAfterError(Now(), tmp, outcome.error, faults)
      ensures outcome.Failed? ==> !Early(outcome.error)
      ensures faults.intruder.Some? ==>
                |moments| > |old(moments)| && moments[|old(moments)|] == old(Now())[tmp := faults.intruder.value]
    {
      var error := Attempt(dest, tmp, bytes, mode, umask, faults);
      if error.None? { return Installed; }
      RemoveFile(tmp, faults.remove);
      return Failed(error.value);
    }

    /**
       `atomic_write_with_mode`; `parent` and `name` are absent for a path that has none.  `tmp` is
       the temporary path, if it came to one.
     */
    method AtomicWriteWithMode(parent: Option<string>, name: Option<string>, bytes: seq<bv8>, mode: Mode, umask: Mode,
                               pid: nat, nanos: nat, faults: Faults)
      returns (outcome: Outcome, tmp: Option<Path>)
      modifies this
      ensures tmp.None? <==> outcome.Failed? && Early(outcome.error)
      ensures tmp.None? ==> moments == old(moments)
      ensures parent.None? ==> outcome == Failed(NoParent)
      ensures parent.Some? && faults.createDir ==> outcome == Failed(CreateDir)
      ensures parent.Some? && !faults.createDir && name.None? ==> outcome == Failed(NoFileName)
      ensures parent.Some? && !faults.createDir && name.Some? && tmp.None? ==> outcome == Failed(NoTempName)
      ensures parent.Some? && name.Some? && !faults.createDir ==>
                (tmp.None? <==> forall k: nat :: k < 64 ==>
                                  Path(parent.value, TempName(name.value, pid, nanos, k)) in old(Now()))
      ensures tmp.Some? ==>
                && parent.Some? && name.Some?
                && var dest := Path(parent.value, name.value);
                && tmp.value != dest && tmp.value !in old(Now()) && old(moments) <= moments
                && SafeSince(|old(moments)|, old(Now()), dest, tmp.value, bytes, mode, umask, faults.intruder)
                && (outcome.Installed? ==> Now() == old(Now())[dest := File(bytes, mode, true, mode & !umask)])
                && (outcome.Failed? ==> Now() - {tmp.value} == old(Now())
                                        && TempAfterError(Now(), tmp.value, outcome.error, faults))
                && (outcome.Installed? ==>
                      && dest in Now() && Now()[dest].File? && Now()[dest].content == bytes
                      && Now()[dest].mode == mode && Now()[dest].synced)
                && (faults.intruder.Some? || faults.open ==> outcome == Failed(Open))
                && (faults.intruder.None? && !faults.open && !faults.write ==>
                      outcome == if faults.sync then Failed(Sync) else if faults.chmod then Failed(Chmod)
                                 else if faults.rename || (dest in old(Now()) && old(Now())[dest].Directory?)
                                 then Failed(Rename) else Installed)
                && (faults.intruder.Some? ==>
                      && |moments| > |old(moments)|
                      && moments[|old(moments)|] == old(Now())[tmp.value := faults.intruder.value])
    {
      if parent.None? { return Failed(NoParent), None; }
      if faults.createDir { return Failed(CreateDir), None; }
      if name.None? { return Failed(NoFileName), None; }
      tmp := CreateTempFilePath(parent.value, name.value, pid, nanos);
      if tmp.None? { return Failed(NoTempName), None; }
      ghost var k: nat :| k < 64 && tmp.value == Path(parent.value, TempName(name.value, pid, nanos, k));
      TempNamesDiffer(name.value, pid, nanos, k, pid, nanos, k);
      outcome := InstallVia(Path(parent.value, name.value), tmp.value, bytes, mode, umask, faults);
    }

    /** `atomic_install`: the key is for its owner alone, 0600; certificates are for everybody to read, 0644. */
    method AtomicInstall(artifact: Artifact, parent: Option<string>, name: Option<string>, bytes: seq<bv8>, umask: Mode,
                         pid: nat, nanos: nat, faults: Faults)
      returns (outcome: Outcome, tmp: Option<Path>)
      modifies this
      ensures outcome.Installed? ==>
                && parent.Some? && name.Some?
                && var dest := Path(parent.value, name.value);
                && dest in Now() && Now()[dest].File? && Now()[dest].content == bytes && Now()[dest].synced
                && (artifact == CaKey ==> Now()[dest].mode == 0x180)
                && (artifact == CaCertificate || artifact == ServerCertificate ==> Now()[dest].mode == 0x1A4)
                && forall p :: p != dest ==> SameAt(Now(), old(Now()), p)
      ensures outcome.Failed? && tmp.Some? ==> Now() - {tmp.value} == old(Now())
      ensures outcome.Failed? && tmp.None? ==> Now() == old(Now())
    {
      outcome, tmp := AtomicWriteWithMode(parent, name, bytes, ArtifactMode(artifact), umask, pid, nanos, faults);
    }
  }

  /**
     A failing install may delete a file it did not write: one that another process put at the
     temporary path between the look for a free name and the exclusive open.
   */
  method ForeignFileIsDeleted(foreign: Node, bytes: seq<bv8>, mode: Mode, umask: Mode, pid: nat, nanos: nat)
    returns (disk: Disk, tmp: Path)
    requires foreign.File?
    ensures exists k :: 0 <= k < |disk.moments| && tmp in disk.moments[k] && disk.moments[k][tmp] == foreign
    ensures tmp !in disk.Now()
  {
    var faults := Faults(false, false, false, false, false, false, false, [], Some(foreign));
    var empty: Tree := map[];
    disk := new Disk(empty);
    var outcome, chosen :=
      disk.AtomicWriteWithMode(Some("/etc"), Some("ca.key"), bytes, mode, umask, pid, nanos, faults);
    assert Path("/etc", TempName("ca.key", pid, nanos, 0)) !in empty;
    tmp := chosen.value;
    assert tmp in disk.moments[1] && disk.moments[1][tmp] == foreign;
  }

  // ---------------------------------------------------------------- what the guarantees mean

  /** The permission bits of group and others. */
  const OTHERS: Mode := 0x3F

  lemma KeyModeHidesFromOthers(m: Mode)
    ensures NarrowerOrEqual(m, 0x180) ==> m & OTHERS == 0
  {
  }

  lemma UmaskTakesNothing(mode: Mode, umask: Mode)
    ensures mode & !umask == mode <==> mode & umask == 0
  {
  }

  /** While a CA key is being installed, nothing of ours at the temporary path ever grants group or others anything. */
  lemma KeyIsNeverExposed(s: Tree, tmp: Path, bytes: seq<bv8>, intruder: Option<Node>)
    requires TempSafe(s, tmp, bytes, ArtifactMode(CaKey), intruder) && tmp in s && Some(s[tmp]) != intruder
    ensures s[tmp].File? && s[tmp].mode & OTHERS == 0 && s[tmp].syncedMode & OTHERS == 0
  {
    KeyModeHidesFromOthers(s[tmp].mode);
    KeyModeHidesFromOthers(s[tmp].syncedMode);
  }

  /**
     What a power cut may leave of a file whose directory entry survives: `None` when its contents
     may be torn; otherwise its contents, with the mode it was synced with or the one set since.
   */
  predicate MayRemain(n: Node, left: Option<Node>) {
    if n.File? && !n.synced then left == None
    else if n.File? then left == Some(n) || left == Some(n.(mode := n.syncedMode))
    else left == Some(n)
  }

  /**
     A power cut at any moment of an installation, whichever of the two directory entries survives
     it, leaves at the destination what it could have left of the old file, or all the new bytes
     with the requested mode or that mode less the umask.
   */
  lemma SurvivesPowerCut(s: Tree, before: Tree, dest: Path, tmp: Path, bytes: seq<bv8>, mode: Mode, umask: Mode,
                         left: Option<Node>)
    requires Safe(s, before, dest, tmp, File(bytes, mode, true, mode & !umask)) && dest in s && MayRemain(s[dest], left)
    ensures || (dest in before && MayRemain(before[dest], left))
            || (&& left.Some? && left.value.File? && left.value.content == bytes
                && left.value.mode in [mode, mode & !umask] && NarrowerOrEqual(left.value.mode, mode))
  {
    UmaskNarrows(mode, umask);
  }

  /**
     The mode of the installed file is guaranteed to survive a power cut exactly when the umask
     takes nothing from it, because the file is synced before its permissions are set.
   */
  lemma ModeSurvivesPowerCut(bytes: seq<bv8>, mode: Mode, umask: Mode)
    ensures (forall left :: MayRemain(File(bytes, mode, true, mode & !umask), left) ==> left.value.mode == mode) <==>
            mode & umask == 0
  {
    UmaskTakesNothing(mode, umask);
    var file := File(bytes, mode, true, mode & !umask);
    assert MayRemain(file, Some(file.(mode := mode & !umask)));
  }

  lemma TempTailSpelled()
    ensures TempTail(7, 12, 0) == "7-12-0.tmp"
  {
    assert Decimal(7) == "7" && Decimal(0) == "0";
    assert Decimal(1) == "1" && Decimal(12) == Decimal(1) + "2";
  }

  /** A temporary name, spelled out. */
  lemma TempNameSpelled()
    ensures TempName("ca.key", 7, 12, 0) == ".ca.key.klights-credential-" + "7-12-0.tmp"
  {
    TempTailSpelled();
    assert "." + "ca.key" + ".klights-credential-" == ".ca.key.klights-credential-";
  }
}
