// What each attachment operation may do to the two directories of a session:
// the canonical one and its projection in the worktree.  Every relation allows
// for any step of the operation to fail.
module AttachmentModel {
  import opened Options
  import opened AttachmentNames

  const MAX_FILE_BYTES := 10 * 1024 * 1024

  newtype byte = x: int | 0 <= x < 256
  type Bytes = seq<byte>

  // `Other` is anything that is not a regular file.
  datatype Node = File(bytes: Bytes) | Other
  type Folder = map<string, Node>

  predicate GoodNode(n: Node) {
    n.File? && 1 <= |n.bytes| <= MAX_FILE_BYTES
  }

  // A file that openRegularFile hands out under a name the store accepts.
  predicate Usable(f: Folder, name: string) {
    name in f && ValidName(name) && GoodNode(f[name])
  }

  function Get(f: Folder, name: string): Option<Node> {
    if name in f then Some(f[name]) else None
  }

  // Open for HTTP serving.
  function Opened(f: Folder, name: string): Option<Bytes> {
    if Usable(f, name) then Some(f[name].bytes) else None
  }

  // Equal but for temporaries, which come and go.
  ghost predicate Same(f: Folder, f': Folder) {
    forall n :: !IsTemp(n) ==> Get(f', n) == Get(f, n)
  }

  // Equal but for temporaries and the one entry.
  ghost predicate Plus(f: Folder, f': Folder, name: string, data: Bytes) {
    forall n :: !IsTemp(n) ==> Get(f', n) == if n == name then Some(File(data)) else Get(f, n)
  }

  // ---------- writeReaderAtomicRoot ----------

  datatype WriteResult = Written | Exists | Empty | TooLarge | Failed

  ghost predicate WriteRel(f: Folder, f': Folder, name: string, data: Bytes, replace: bool, r: WriteResult) {
    match r
    case Written => Plus(f, f', name, data) && 1 <= |data| <= MAX_FILE_BYTES && (name in f ==> replace)
    case Exists => Same(f, f') && !replace && name in f && 1 <= |data| <= MAX_FILE_BYTES
    case Empty => Same(f, f') && |data| == 0
    case TooLarge => Same(f, f') && |data| > MAX_FILE_BYTES
    case Failed => Same(f, f')
  }

  // ---------- Put ----------

  // A valid name that is free in both places, and a size within bounds.
  predicate Storable(c: Folder, w: Folder, name: string, data: Bytes) {
    ValidName(name) && 1 <= |data| <= MAX_FILE_BYTES && name !in c && name !in w
  }

  datatype PutResult = Stored | Refused | WorkspaceFailed | RollbackFailed

  ghost predicate PutRel(c: Folder, c': Folder, w: Folder, w': Folder, name: string, data: Bytes, r: PutResult) {
    match r
    case Stored =>
      Storable(c, w, name, data) && Plus(c, c', name, data) && Plus(w, w', name, data)
    case Refused => Same(c, c') && Same(w, w')
    case WorkspaceFailed => Same(c, c') && Same(w, w')
    case RollbackFailed =>
      && ValidName(name) && 1 <= |data| <= MAX_FILE_BYTES && name !in c
      && Plus(c, c', name, data) && Same(w, w')
  }

  // ---------- ImportWorkspace ----------

  // What canonical storage holds under a name after an import that got to the
  // worktree entries in `done`: what it held, or else the usable worktree file.
  function ImportGet(c: Folder, w: Folder, done: set<string>, n: string): Option<Node> {
    if n in c then Some(c[n]) else if n in done && Usable(w, n) then Some(w[n]) else None
  }

  ghost predicate Imported(c: Folder, c': Folder, w: Folder, done: set<string>) {
    forall n :: !IsTemp(n) ==> Get(c', n) == ImportGet(c, w, done, n)
  }

  ghost predicate ImportRel(c: Folder, c': Folder, w: Folder, ok: bool) {
    if ok then Imported(c, c', w, w.Keys) else exists done :: Imported(c, c', w, done)
  }

  // ---------- MaterializeWorkspace ----------

  function ProjectGet(c: Folder, w: Folder, done: set<string>, n: string): Option<Node> {
    if n in done && Usable(c, n) then Some(c[n]) else Get(w, n)
  }

  ghost predicate Projected(c: Folder, w: Folder, w': Folder, done: set<string>) {
    forall n :: !IsTemp(n) ==> Get(w', n) == ProjectGet(c, w, done, n)
  }

  ghost predicate MaterializeRel(c: Folder, w: Folder, w': Folder, ok: bool, materialized: bool) {
    if ok then Projected(c, w, w', c.Keys) && (materialized <==> exists n :: Usable(c, n))
    else !materialized && exists done :: Projected(c, w, w', done)
  }
}
