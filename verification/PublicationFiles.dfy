/** The marker files of one publication and the protocol on them when nobody else touches the directory. */
module PublicationFiles {
  import opened Json
  import opened BuzzContext

  /** The digest of a text, taken to be injective. */
  datatype Key = Key(digested: string)

  datatype Path = LockFile(key: Key) | PublishedFile(key: Key) | UnknownFile(key: Key)

  /** A directory entry: when the file was last written, and which file it is. */
  datatype File = File(mtime: int, inode: nat)

  type Directory = map<Path, File>

  /** What `reservePublication` comes back with; `Busy` is the error it throws. */
  datatype Reservation = Reserved | AlreadyPublished | PreviouslyUnknown | Busy

  datatype PublicationOutcome =
    | Delivered(eventId: string)
    | NotDelivered(reason: string)
    | DeliveryUnknown(reason: string)

  function PublicationKey(route: BuzzRoute): Key {
    Key(route.channelId + "\0" + route.triggeringEventId)
  }

  /** The publication of this key was confirmed, or may have happened. */
  predicate Marked(dir: Directory, key: Key) {
    PublishedFile(key) in dir || UnknownFile(key) in dir
  }

  function Renamed(dir: Directory, from: Path, to: Path): Directory
    requires from in dir
  {
    (dir - {from})[to := dir[from]]
  }

  /** `reservePublication` with the directory to itself, the clock standing at `now`. */
  function ReserveAlone(dir: Directory, key: Key, now: int, staleAfter: int, inode: nat): (Directory, Reservation) {
    if PublishedFile(key) in dir then (dir, AlreadyPublished)
    else if UnknownFile(key) in dir then (dir, PreviouslyUnknown)
    else if LockFile(key) in dir && now - dir[LockFile(key)].mtime < staleAfter then (dir, Busy)
    else (dir[LockFile(key) := File(now, inode)], Reserved)
  }

  /** What a reservation's `commit`, `markUnknown` or `release` leaves behind, its lock still being in place. */
  function SettleAlone(dir: Directory, key: Key, outcome: PublicationOutcome): Directory
    requires LockFile(key) in dir
  {
    match outcome
    case Delivered(_) => Renamed(dir, LockFile(key), PublishedFile(key))
    case DeliveryUnknown(_) => Renamed(dir, LockFile(key), UnknownFile(key))
    case NotDelivered(_) => dir - {LockFile(key)}
  }

  /** The key's lock is gone, and the very same file is there under the marker's name; nothing else has changed. */
  ghost predicate LockBecomes(before: Directory, key: Key, marker: Path, after: Directory) {
    && LockFile(key) in before && LockFile(key) !in after
    && marker in after && after[marker] == before[LockFile(key)]
    && forall path :: path != LockFile(key) && path != marker ==>
         (path in after <==> path in before) && (path in after ==> after[path] == before[path])
  }

  /** The state directory, changed file operation by file operation. */
  class StateDirectory {
    var files: Directory
    var nextInode: nat

    constructor ()
      ensures files == map[] && nextInode == 0
    {
      files := map[];
      nextInode := 0;
    }

    /** Creates the file, unless there is one already, then writes and closes it. */
    method CreateExclusive(path: Path, now: int) returns (created: bool)
      modifies this
      ensures created == (path !in old(files))
      ensures created ==> files == old(files)[path := File(now, old(nextInode))] && nextInode == old(nextInode) + 1
      ensures !created ==> files == old(files) && nextInode == old(nextInode)
    {
      created := path !in files;
      if created {
        files := files[path := File(now, nextInode)];
        nextInode := nextInode + 1;
      }
    }

    method Remove(path: Path)
      modifies this`files
      ensures files == old(files) - {path}
    {
      files := files - {path};
    }

    method Rename(from: Path, to: Path) returns (found: bool)
      modifies this`files
      ensures found == (from in old(files))
      ensures files == if found then Renamed(old(files), from, to) else old(files)
    {
      found := from in files;
      if found {
        files := Renamed(files, from, to);
      }
    }

    /** Makes at most two attempts, and agrees with `ReserveAlone`, which knows neither re-checks nor retries. */
    method Reserve(key: Key, now: int, staleAfter: int) returns (reservation: Reservation, attempts: nat)
      modifies this
      ensures (files, reservation) == ReserveAlone(old(files), key, now, staleAfter, old(nextInode))
      ensures nextInode == old(nextInode) + if reservation.Reserved? then 1 else 0
      ensures var lock := LockFile(key);
        var young := lock in old(files) && now - old(files)[lock].mtime < staleAfter;
        && (reservation.AlreadyPublished? <==> PublishedFile(key) in old(files))
        && (reservation.PreviouslyUnknown? <==> PublishedFile(key) !in old(files) && UnknownFile(key) in old(files))
        && (reservation.Busy? <==> !Marked(old(files), key) && young)
        && (reservation.Reserved? <==> !Marked(old(files), key) && !young)
      ensures !reservation.Reserved? ==> files == old(files)
      ensures reservation.Reserved? ==>
        LockFile(key) in files && files == old(files)[LockFile(key) := File(now, old(nextInode))]
      ensures 1 <= attempts <= if LockFile(key) in old(files) then 2 else 1
      decreases LockFile(key) in files
    {
      if PublishedFile(key) in files {
        return AlreadyPublished, 1;
      }
      if UnknownFile(key) in files {
        return PreviouslyUnknown, 1;
      }
      var created := CreateExclusive(LockFile(key), now);
      if created {
        return Reserved, 1;
      }
      if PublishedFile(key) in files {
        assert false;
      }
      if UnknownFile(key) in files {
        assert false;
      }
      var age := now - files[LockFile(key)].mtime;
      if age < staleAfter {
        return Busy, 1;
      }
      Remove(LockFile(key));
      reservation, attempts := Reserve(key, now, staleAfter);
      attempts := attempts + 1;
      assert files == old(files)[LockFile(key) := File(now, old(nextInode))];
    }

    method Settle(key: Key, outcome: PublicationOutcome) returns (found: bool)
      modifies this`files
      ensures found == (LockFile(key) in old(files) || outcome.NotDelivered?)
      ensures outcome.NotDelivered? ==> files == old(files) - {LockFile(key)}
      ensures outcome.Delivered? && found ==> LockBecomes(old(files), key, PublishedFile(key), files)
      ensures outcome.DeliveryUnknown? && found ==> LockBecomes(old(files), key, UnknownFile(key), files)
      ensures !found ==> files == old(files)
      ensures LockFile(key) in old(files) ==> files == SettleAlone(old(files), key, outcome)
    {
      match outcome {
        case Delivered(_) =>
          found := Rename(LockFile(key), PublishedFile(key));
        case DeliveryUnknown(_) =>
          found := Rename(LockFile(key), UnknownFile(key));
        case NotDelivered(_) =>
          Remove(LockFile(key));
          found := true;
      }
    }
  }

  lemma SeparatorComesFirst(front: string, back: string)
    requires '\0' !in front
    ensures (front + "\0" + back)[|front|] == '\0'
    ensures forall i :: 0 <= i < |front| ==> (front + "\0" + back)[i] != '\0'
  {
    assert forall i :: 0 <= i < |front| ==> (front + "\0" + back)[i] == front[i];
  }

  /**
   * As long as channel ids are free of NULs, the joined text identifies the reply by channel and event; the thread
   * anchor plays no part.
   */
  lemma KeyIdentifiesReply(a: BuzzRoute, b: BuzzRoute)
    requires '\0' !in a.channelId && '\0' !in b.channelId
    ensures PublicationKey(a) == PublicationKey(b) <==>
      a.channelId == b.channelId && a.triggeringEventId == b.triggeringEventId
  {
    if PublicationKey(a) == PublicationKey(b) {
      var text := a.channelId + "\0" + a.triggeringEventId;
      assert text == b.channelId + "\0" + b.triggeringEventId;
      SeparatorComesFirst(a.channelId, a.triggeringEventId);
      SeparatorComesFirst(b.channelId, b.triggeringEventId);
      var n := |a.channelId|;
      assert n == |b.channelId|;
      assert a.channelId == text[..n] == b.channelId;
      assert a.triggeringEventId == text[n + 1..] == b.triggeringEventId;
    }
  }

  /** A NUL in a channel id could be taken for the separator. */
  lemma NulsWouldConfuseKeys() returns (a: BuzzRoute, b: BuzzRoute)
    ensures PublicationKey(a) == PublicationKey(b) && a.channelId != b.channelId
  {
    a, b := BuzzRoute("c\0", "e", None), BuzzRoute("c", "\0e", None);
    assert a.channelId + "\0" + a.triggeringEventId == b.channelId + "\0" + b.triggeringEventId;
  }
}
