/** The storage all jobs share: the data dir with its pending markers, and the buckets. */
module Storage {
  import opened Wrappers
  import opened SnapshotKeys
  import opened Ownership

  /** The content of an archive. Its hash is injective, so a digest stands for what was hashed. */
  type Bytes = nat
  datatype Digest = Sha256(of: Bytes)

  /**
   What a key holds: an archive, a sidecar manifest with `archive_sha256`, a marker naming a job, or a cut-off
   file.
   */
  datatype Content = Whole(bytes: Bytes) | Sidecar(archiveSha256: Digest) | PendingFor(job: string) | Torn

  datatype Artifact = Artifact(ext: Extension, bytes: Bytes)

  datatype Loc = At(place: Place, key: Key)

  /** `job`'s retention chose `sid` at `place`. */
  datatype Pick = Pick(job: string, place: Place, sid: string)

  /** A job has put a plain snapshot where, beside other jobs, it is not the one to prune it. */
  datatype Race = Race(place: Place, sid: string)

  /**
   All stores together; the artifacts runs have built, and what retention has chosen to prune; and of the runs under
   way, the ids they have built, what retention has chosen in them, and the races they have run.
   */
  datatype World = World(
    store: map<Loc, Content>, made: map<string, Artifact>, pruned: set<Pick>,
    building: set<string>, chosen: set<Pick>, raced: set<Race>)

  // ---- What the world holds ----

  function ArchiveAt(w: World, place: Place, sid: string): Loc
    requires sid in w.made
  {
    At(place, Key(sid, Archive(w.made[sid].ext)))
  }

  function ManifestAt(place: Place, sid: string): Loc {
    At(place, Key(sid, Manifest))
  }

  function MarkerOf(sid: string): Loc {
    At(Local, Key(sid, Marker))
  }

  /** The job the pending marker of `sid` names; a cut-off marker does not parse and names none. */
  function MarkedFor(w: World, sid: string): Option<string> {
    if MarkerOf(sid) in w.store && w.store[MarkerOf(sid)].PendingFor? then Some(w.store[MarkerOf(sid)].job) else None
  }

  /** What `verify` checks: an archive is there, a manifest is there, and the archive's hash is the manifest's. */
  ghost predicate Complete(store: map<Loc, Content>, place: Place, sid: string) {
    exists ext, bytes :: IsPair(store, place, sid, ext, bytes)
  }

  predicate IsPair(store: map<Loc, Content>, place: Place, sid: string, ext: Extension, bytes: Bytes) {
    && At(place, Key(sid, Archive(ext))) in store && store[At(place, Key(sid, Archive(ext)))] == Whole(bytes)
    && ManifestAt(place, sid) in store && store[ManifestAt(place, sid)] == Sidecar(Sha256(bytes))
  }

  /** The place holds exactly what the run of `sid` built. */
  predicate Intact(w: World, place: Place, sid: string) {
    sid in w.made && IsPair(w.store, place, sid, w.made[sid].ext, w.made[sid].bytes)
  }

  ghost predicate Somewhere(w: World, sid: string) {
    exists place :: Intact(w, place, sid)
  }

  ghost predicate Offsite(w: World, sid: string) {
    exists place :: place != Local && Intact(w, place, sid)
  }

  ghost predicate WasPruned(w: World, sid: string) {
    exists pick :: pick in w.pruned && pick.sid == sid
  }

  /** Ownership looks at markers only in the data dir. */
  function MarkerSeen(w: World, place: Place, sid: string): Option<string> {
    if place == Local then MarkedFor(w, sid) else None
  }
}
