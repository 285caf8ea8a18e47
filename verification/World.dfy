/** Effects on files and on a remote collection, the plans that undo them, and the steps of those plans. */
module World {
  import opened Bytes
  import opened Options

  type Path = string

  /** Permission bits. */
  type Mode = m: nat | m < 0x1000

  /** What a captured `st_mode` holds above the permission bits of a regular file. */
  const S_IFREG := 0x8000

  /** `ino` stands for the pair of device and inode. */
  datatype File = File(ino: nat, bytes: seq<Byte>, mode: Mode)

  datatype World = World(files: map<Path, File>, remote: set<string>)

  datatype Effect =
    | Write(path: Path, data: seq<Byte>, newIno: nat, newMode: Mode)
    | Truncate(path: Path, len: nat)
    | Unlink(path: Path)
    | Chmod(path: Path, mode: Mode)
    | Rename(from: Path, to: Path)
    | Create(url: string)

  // ---------------------------------------------------------------- forward

  /** The effects under study: a rename goes to an unused path, a create makes a new resource. */
  predicate CanLand(w: World, e: Effect) {
    match e
    case Write(path, _, ino, _) => path !in w.files ==> forall p :: p in w.files ==> w.files[p].ino != ino
    case Truncate(path, _) => path in w.files
    case Unlink(path) => path in w.files
    case Chmod(path, _) => path in w.files
    case Rename(from, to) => from in w.files && to !in w.files
    case Create(url) => url !in w.remote
  }

  function Resized(bytes: seq<Byte>, len: nat): seq<Byte> {
    if len <= |bytes| then bytes[..len] else bytes + seq(len - |bytes|, _ => 0)
  }

  function Land(w: World, e: Effect): World
    requires CanLand(w, e)
  {
    match e
    case Write(path, data, ino, mode) =>
      w.(files := w.files[path := if path in w.files then w.files[path].(bytes := data) else File(ino, data, mode)])
    case Truncate(path, len) => w.(files := w.files[path := w.files[path].(bytes := Resized(w.files[path].bytes, len))])
    case Unlink(path) => w.(files := w.files - {path})
    case Chmod(path, mode) => w.(files := w.files[path := w.files[path].(mode := mode)])
    case Rename(from, to) => w.(files := w.files[to := w.files[from]] - {from})
    case Create(url) => w.(remote := w.remote + {url})
  }

  // ---------------------------------------------------------------- capture

  datatype Preimage =
    | NoPreimage
    | FsAbsent
    | FsBytes(blob: seq<Byte>, stMode: nat, ino: nat)

  datatype Receipt = Receipt(op: string, args: map<string, string>, bindings: map<string, string>, preimage: Preimage)

  /** `readPre`. */
  function ReadPre(w: World, path: Path): Preimage {
    if path in w.files then FsBytes(w.files[path].bytes, S_IFREG + w.files[path].mode, w.files[path].ino) else FsAbsent
  }

  /** The receipt captured just before the effect runs. */
  function Captured(w: World, e: Effect): Receipt {
    match e
    case Write(path, _, _, _) => Receipt("write", map["path" := path], map[], ReadPre(w, path))
    case Truncate(path, _) => Receipt("truncate", map["path" := path], map[], ReadPre(w, path))
    case Unlink(path) => Receipt("unlink", map["path" := path], map[], ReadPre(w, path))
    case Chmod(path, _) => Receipt("chmod", map["path" := path], map[], ReadPre(w, path))
    case Rename(from, to) =>
      Receipt("rename", map["path" := from, "from" := from, "to" := to], map["from" := from, "to" := to], ReadPre(w, from))
    case Create(url) => Receipt("POST", map[], map["resource_url" := url], NoPreimage)
  }

  // ---------------------------------------------------------------- plans

  datatype Ref = Binding(name: string) | Arg(name: string)

  datatype Source = PreimageAbsent | PreimageBlob

  datatype Step =
    | FsRestore(path: Ref, source: Source, restoreMeta: bool)
    | FsRename(from: Ref, to: Ref)
    | HttpDelete(url: Ref)

  function BoundOrArg(r: Receipt, name: string): Ref {
    if name in r.bindings then Binding(name) else Arg(name)
  }

  /** `planForFs`: the one step that undoes a file effect. */
  function PlanForFs(r: Receipt): Step {
    if r.op == "rename" then FsRename(BoundOrArg(r, "to"), BoundOrArg(r, "from"))
    else if r.preimage.FsAbsent? || r.op == "mkdir" then FsRestore(BoundOrArg(r, "path"), PreimageAbsent, false)
    else FsRestore(BoundOrArg(r, "path"), PreimageBlob, true)
  }

  /** The compensator the registry matches: `cmp_http_create@1` for a REST create, else `cmp_fs_write@1`. */
  function PlanFor(r: Receipt): Step {
    if r.op == "POST" then HttpDelete(Binding("resource_url")) else PlanForFs(r)
  }

  function Resolve(r: Receipt, ref: Ref): string {
    match ref
    case Binding(name) => if name in r.bindings then r.bindings[name] else ""
    case Arg(name) => if name in r.args then r.args[name] else ""
  }

  // ---------------------------------------------------------------- steps

  const ACCEPTED: set<nat> := {200, 202, 204, 404}

  /** An answer no DELETE step accepts. */
  type ErrorStatus = s: nat | s !in ACCEPTED witness 500

  /** How the server takes one DELETE. It never claims a deletion it did not make: a 2xx or a 404 means
      the resource is gone. `ErrsAfter` deletes and then fails to say so. */
  datatype Server = Serves | ErrsAfter(status: ErrorStatus) | Refuses(status: ErrorStatus)

  /** Where a file step breaks, if it does. */
  datatype Break = Nowhere | AtOnce | BeforeSwap | BeforeChmod

  /** The surroundings of one try: a new inode, the temporary name, and what goes wrong. */
  datatype Env = Env(inode: nat, tmp: Path, breaks: Break, server: Server)

  /** One try: `Failed(None)` is an error without a VR code. */
  datatype Try = Worked | Failed(code: Option<string>)

  /** `assertIdentity`: a file in the way must be the one that was captured. */
  predicate SameIdentity(files: map<Path, File>, path: Path, pre: Preimage) {
    path in files && pre.FsBytes? ==> files[path].ino == pre.ino
  }

  /** The file a plan works on, if it works on one. */
  function Target(r: Receipt): Option<Path> {
    match PlanFor(r)
    case FsRestore(path, _, _) => Some(Resolve(r, path))
    case FsRename(from, _) => Some(Resolve(r, from))
    case HttpDelete(_) => None
  }

  /** `assertFsScope` when the plan is compiled: a file in the way that is not the captured one is VR3008. */
  predicate InFileScope(w: World, r: Receipt) {
    Target(r).Some? ==> SameIdentity(w.files, Target(r).value, r.preimage)
  }

  /** `executeFs` and `executeHttp` on the plans above. */
  function TryStep(w: World, r: Receipt, step: Step, env: Env): (World, Try) {
    match step
    case FsRename(fromRef, toRef) =>
      var (from, to) := (Resolve(r, fromRef), Resolve(r, toRef));
      if !SameIdentity(w.files, from, r.preimage) then (w, Failed(Some("VR5009")))
      else if from !in w.files || env.breaks != Nowhere then (w, Failed(None))
      else (w.(files := w.files - {from} + map[to := w.files[from]]), Worked)
    case FsRestore(pathRef, PreimageAbsent, _) =>
      var path := Resolve(r, pathRef);
      if path !in w.files then (w, Worked)
      else if env.breaks != Nowhere then (w, Failed(None))
      else (w.(files := w.files - {path}), Worked)
    case FsRestore(pathRef, PreimageBlob, restoreMeta) =>
      var path := Resolve(r, pathRef);
      if !SameIdentity(w.files, path, r.preimage) then (w, Failed(Some("VR5009")))
      else if !r.preimage.FsBytes? then (w, Failed(Some("VR3006")))
      else if env.tmp in w.files || env.breaks == AtOnce then (w, Failed(None))
      else
        var made := File(env.inode, r.preimage.blob, 0x180);
        if env.breaks == BeforeSwap then (w.(files := w.files[env.tmp := made]), Failed(None))
        else if env.breaks == BeforeChmod then (w.(files := w.files[path := made]), Failed(None))
        else (w.(files := w.files[path := if restoreMeta then made.(mode := r.preimage.stMode % 0x1000) else made]), Worked)
    case HttpDelete(urlRef) =>
      var url := Resolve(r, urlRef);
      if url == "" then (w, Failed(Some("VR5001")))
      else match env.server
        case Serves => (w.(remote := w.remote - {url}), Worked)
        case ErrsAfter(_) => (w.(remote := w.remote - {url}), Failed(Some("VR5001")))
        case Refuses(_) => (w, Failed(Some("VR5001")))
  }

  /** The retry loop of `executePlan` from try `n` on. `None` means that no error is left at its end: the
      attempt is recorded as succeeded, also when the loop is never entered. */
  function Retry(w: World, r: Receipt, envs: nat -> Env, n: nat, maxRetries: nat): (World, Option<string>)
    decreases maxRetries + 1 - n
  {
    if n > maxRetries then (w, None)
    else
      var (w', t) := TryStep(w, r, PlanFor(r), envs(n));
      match t
      case Worked => (w', None)
      case Failed(code) =>
        if code == Some("VR5001") && n < maxRetries then Retry(w', r, envs, n + 1, maxRetries)
        else (w', Some(if code.Some? then code.value else "VR5001"))
  }

  function Dispatch(w: World, r: Receipt, envs: nat -> Env, maxRetries: nat): (World, Option<string>) {
    Retry(w, r, envs, 1, maxRetries)
  }

  /** A file stands at the path that is not the captured one. */
  predicate Foreign(w: World, r: Receipt, path: Path) {
    path in w.files && r.preimage.FsBytes? && w.files[path].ino != r.preimage.ino
  }

  /** Moving a file back: refused for a foreign file, impossible for a missing one, and otherwise the file itself
      is at the other path. */
  lemma RenameExact(w: World, r: Receipt, fromRef: Ref, toRef: Ref, env: Env)
    ensures var (from, to) := (Resolve(r, fromRef), Resolve(r, toRef));
            var (w', t) := TryStep(w, r, FsRename(fromRef, toRef), env);
            && (t == Failed(Some("VR5009")) <==> Foreign(w, r, from))
            && (t == Worked <==> !Foreign(w, r, from) && from in w.files && env.breaks == Nowhere)
            && (t != Worked && t != Failed(Some("VR5009")) ==> t == Failed(None))
            && w'.remote == w.remote
            && (forall p :: p in w'.files <==> if t != Worked then p in w.files else p == to || (p in w.files && p != from))
            && (forall p :: p in w'.files ==> w'.files[p] == if t == Worked && p == to then w.files[from] else w.files[p])
  {
  }

  /** Removing what was not there before: nothing to do if it is gone; whose file it is does not matter. */
  lemma RemoveExact(w: World, r: Receipt, pathRef: Ref, meta: bool, env: Env)
    ensures var path := Resolve(r, pathRef);
            var (w', t) := TryStep(w, r, FsRestore(pathRef, PreimageAbsent, meta), env);
            && t == (if path !in w.files || env.breaks == Nowhere then Worked else Failed(None))
            && w' == if t == Worked then w.(files := w.files - {path}) else w
  {
    assert Resolve(r, pathRef) !in w.files ==> w.files - {Resolve(r, pathRef)} == w.files;
  }

  /** Putting the captured bytes back: refused for a foreign file and without bytes; a break before the new file
      is moved into place leaves the target alone, one after it leaves it with the bytes and no mode. */
  lemma PutBackExact(w: World, r: Receipt, pathRef: Ref, meta: bool, env: Env)
    requires env.tmp != Resolve(r, pathRef)
    ensures var path := Resolve(r, pathRef);
            var (w', t) := TryStep(w, r, FsRestore(pathRef, PreimageBlob, meta), env);
            && (t == Failed(Some("VR5009")) <==> Foreign(w, r, path))
            && (t == Failed(Some("VR3006")) <==> !r.preimage.FsBytes?)
            && (t == Worked <==> r.preimage.FsBytes? && !Foreign(w, r, path) && env.tmp !in w.files && env.breaks == Nowhere)
            && (t.Failed? && t.code != Some("VR5009") && t.code != Some("VR3006") ==> t == Failed(None))
            && w'.remote == w.remote && (forall p :: p != path && p in w.files ==> p in w'.files && w'.files[p] == w.files[p])
            && (t == Worked ==>
                  w'.files == w.files[path := File(env.inode, r.preimage.blob, if meta then r.preimage.stMode % 0x1000 else 0x180)])
            && (t != Worked && env.breaks != BeforeChmod ==> (path in w.files <==> path in w'.files))
            && (t != Worked && path in w'.files ==>
                  (path in w.files && w'.files[path] == w.files[path])
                  || (env.breaks == BeforeChmod && w'.files[path] == File(env.inode, r.preimage.blob, 0x180)))
  {
  }

  /** Deleting a resource: it is gone unless the server refuses, and the step says VR5001 unless the server
      owns up to the deletion. */
  lemma DeleteExact(w: World, r: Receipt, urlRef: Ref, env: Env)
    ensures var url := Resolve(r, urlRef);
            var (w', t) := TryStep(w, r, HttpDelete(urlRef), env);
            && t == (if url != "" && env.server == Serves then Worked else Failed(Some("VR5001")))
            && w' == if url == "" || env.server.Refuses? then w else w.(remote := w.remote - {url})
  {
  }

  /** The world after so many tries, each in its surroundings. */
  function AfterTries(w: World, r: Receipt, envs: nat -> Env, from: nat, n: nat): World
    decreases n
  {
    if n == 0 then w else TryStep(AfterTries(w, r, envs, from, n - 1), r, PlanFor(r), envs(from + n - 1)).0
  }

  /** How the try after `n` tries ends. */
  function TryAfter(w: World, r: Receipt, envs: nat -> Env, from: nat, n: nat): Try {
    TryStep(AfterTries(w, r, envs, from, n), r, PlanFor(r), envs(from + n)).1
  }

  lemma {:induction false} TriesShift(w: World, r: Receipt, envs: nat -> Env, from: nat, n: nat)
    ensures var w1 := TryStep(w, r, PlanFor(r), envs(from)).0;
            AfterTries(w, r, envs, from, n + 1) == AfterTries(w1, r, envs, from + 1, n)
  {
    hide TryStep, PlanFor;
    if n > 0 {
      TriesShift(w, r, envs, from, n - 1);
      assert from + 1 + n - 1 == from + n;
    } else {
      assert AfterTries(w, r, envs, from, 0) == w;
    }
  }

  /** The loop makes a further try exactly after VR5001, as long as the limit allows; the last try decides the
      world and the error. */
  lemma {:induction false} RetryTries(w: World, r: Receipt, envs: nat -> Env, n: nat, maxRetries: nat) returns (k: nat)
    requires n <= maxRetries
    ensures n + k <= maxRetries
    ensures forall i :: 0 <= i < k ==> TryAfter(w, r, envs, n, i) == Failed(Some("VR5001"))
    ensures TryAfter(w, r, envs, n, k) == Failed(Some("VR5001")) ==> n + k == maxRetries
    ensures Retry(w, r, envs, n, maxRetries)
            == (AfterTries(w, r, envs, n, k + 1),
                match TryAfter(w, r, envs, n, k)
                case Worked => None
                case Failed(Some(code)) => Some(code)
                case Failed(None) => Some("VR5001"))
    decreases maxRetries - n
  {
    var (w1, t) := TryStep(w, r, PlanFor(r), envs(n));
    assert AfterTries(w, r, envs, n, 0) == w && TryAfter(w, r, envs, n, 0) == t && AfterTries(w, r, envs, n, 1) == w1;
    hide TryStep, PlanFor;
    if t == Failed(Some("VR5001")) && n < maxRetries {
      var j := RetryTries(w1, r, envs, n + 1, maxRetries);
      k := j + 1;
      forall i | 0 < i <= k ensures TryAfter(w, r, envs, n, i) == TryAfter(w1, r, envs, n + 1, i - 1) {
        TriesShift(w, r, envs, n, i - 1);
        assert n + 1 + (i - 1) == n + i;
      }
      TriesShift(w, r, envs, n, k);
    } else {
      k := 0;
    }
  }

  /** Files and remote resources as the steps change them, one call at a time. */
  class Machine {
    var files: map<Path, File>
    var remote: set<string>

    ghost function Contents(): World
      reads this
    {
      World(files, remote)
    }

    constructor (w: World)
      ensures Contents() == w
    {
      files, remote := w.files, w.remote;
    }

    /** Write beside the target, move over it, then restore the permission bits. */
    method WriteAtomic(path: Path, bytes: seq<Byte>, env: Env, mode: Option<Mode>) returns (ok: bool)
      requires env.tmp != path
      modifies this`files
      ensures ok == (env.tmp !in old(files) && env.breaks == Nowhere)
      ensures ok ==> files == old(files)[path := File(env.inode, bytes, if mode.Some? then mode.value else 0x180)]
      ensures !ok ==>
                files == if env.tmp in old(files) || env.breaks == AtOnce then old(files)
                         else old(files)[(if env.breaks == BeforeSwap then env.tmp else path) := File(env.inode, bytes, 0x180)]
    {
      if env.tmp in files || env.breaks == AtOnce { return false; }
      ghost var before := files;
      files := files[env.tmp := File(env.inode, bytes, 0x180)];
      if env.breaks == BeforeSwap { return false; }
      files := (files - {env.tmp})[path := files[env.tmp]];
      assert files == before[path := File(env.inode, bytes, 0x180)];
      if env.breaks == BeforeChmod { return false; }
      if mode.Some? { files := files[path := files[path].(mode := mode.value)]; }
      return true;
    }

    method ExecuteStep(r: Receipt, step: Step, env: Env) returns (t: Try)
      requires step.FsRestore? ==> env.tmp != Resolve(r, step.path)
      modifies this
      ensures (Contents(), t) == TryStep(old(Contents()), r, step, env)
    {
      match step {
        case FsRename(fromRef, toRef) =>
          var from, to := Resolve(r, fromRef), Resolve(r, toRef);
          if from in files && r.preimage.FsBytes? && files[from].ino != r.preimage.ino { return Failed(Some("VR5009")); }
          if from !in files || env.breaks != Nowhere { return Failed(None); }
          files := files - {from} + map[to := files[from]];
          return Worked;
        case FsRestore(pathRef, PreimageAbsent, _) =>
          var path := Resolve(r, pathRef);
          if path !in files { return Worked; }
          if env.breaks != Nowhere { return Failed(None); }
          files := files - {path};
          return Worked;
        case FsRestore(pathRef, PreimageBlob, restoreMeta) =>
          var path := Resolve(r, pathRef);
          if path in files && r.preimage.FsBytes? && files[path].ino != r.preimage.ino { return Failed(Some("VR5009")); }
          if !r.preimage.FsBytes? { return Failed(Some("VR3006")); }
          var ok := WriteAtomic(path, r.preimage.blob, env, if restoreMeta then Some(r.preimage.stMode % 0x1000) else None);
          return if ok then Worked else Failed(None);
        case HttpDelete(urlRef) =>
          var url := Resolve(r, urlRef);
          if url == "" { return Failed(Some("VR5001")); }
          if env.server.Refuses? { return Failed(Some("VR5001")); }
          remote := remote - {url};
          return if env.server.Serves? then Worked else Failed(Some("VR5001"));
      }
    }

    /** The retry loop around one step. */
    method RunStep(r: Receipt, envs: nat -> Env, maxRetries: nat) returns (lastErr: Option<string>)
      requires PlanFor(r).FsRestore? ==> forall n :: envs(n).tmp != Resolve(r, PlanFor(r).path)
      modifies this
      ensures (Contents(), lastErr) == Dispatch(old(Contents()), r, envs, maxRetries)
    {
      hide PlanFor, TryStep;
      lastErr := None;
      var n: nat := 1;
      while n <= maxRetries
        invariant 1 <= n <= maxRetries + 1
        invariant lastErr == None || n > maxRetries
        invariant n <= maxRetries ==> Retry(Contents(), r, envs, n, maxRetries) == Dispatch(old(Contents()), r, envs, maxRetries)
        invariant n > maxRetries ==> (Contents(), lastErr) == Dispatch(old(Contents()), r, envs, maxRetries)
      {
        var t := ExecuteStep(r, PlanFor(r), envs(n));
        if t.Worked? { return None; }
        lastErr := Some(if t.code.Some? then t.code.value else "VR5001");
        if t.code != Some("VR5001") || n >= maxRetries { return; }
        lastErr := None;
        n := n + 1;
      }
    }
  }
}
