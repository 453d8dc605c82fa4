/** One server's token file, and the copy of it a process keeps in memory. */
module TokenStore {
  import opened Wrappers

  /** Refresh tokens are told apart by number, in the order the server issues them. */
  datatype Tokens = Tokens(access: nat, refresh: Option<nat>)

  /** What a process keeps of the record. */
  datatype Memory = Memory(
    tokens: Option<Tokens>, expiresAt: Option<real>, metadata: Option<string>, client: Option<string>)

  const NOTHING := Memory(None, None, None, None)

  /** The file: missing, not readable as this server's record, or this server's record. */
  datatype File = Missing | Other | Ours(record: Memory)

  function TokensIn(f: File): Option<Tokens>
  {
    if f.Ours? then f.record.tokens else None
  }

  function RefreshIn(f: File): Option<nat>
  {
    if TokensIn(f).Some? then TokensIn(f).value.refresh else None
  }

  function Loaded(f: File): Memory
  {
    if f.Ours? then f.record else NOTHING
  }

  /** The state a shared save leaves: the file's tokens are kept, whatever memory holds, and a
      file another process removed stays removed. */
  datatype Shared = Shared(memory: Memory, file: File)

  function SharedSave(m: Memory, f: File): (r: Shared)
    ensures TokensIn(r.file) == TokensIn(f)
  {
    match f
    case Missing => if m.tokens.Some? then Shared(m, f) else Shared(m, Ours(m))
    case Other => Shared(m, f)
    case Ours(record) =>
      var adopted := m.(tokens := record.tokens, expiresAt := record.expiresAt);
      Shared(adopted, Ours(adopted))
  }

  /** Keep newly discovered metadata. `lockFree` says whether a caller that does not hold the
      lock can take it. */
  function MetadataSave(m: Memory, f: File, metadata: string, locked: bool, lockFree: bool): Shared
  {
    if m.metadata == Some(metadata) then Shared(m, f)
    else
      var m' := m.(metadata := Some(metadata));
      if locked || lockFree then SharedSave(m', f) else Shared(m', f)
  }

  predicate HoldsMetadata(f: File, metadata: string)
  {
    f.Ours? && f.record.metadata == Some(metadata)
  }

  /** A response leaves its metadata in the file exactly when it was there already, or memory
      holds other metadata, the lock is held or free, and the file is this server's record, or
      is missing while memory holds no tokens. */
  lemma SavedExactlyWhen(m: Memory, f: File, metadata: string, locked: bool, lockFree: bool)
    ensures HoldsMetadata(MetadataSave(m, f, metadata, locked, lockFree).file, metadata)
            <==> || HoldsMetadata(f, metadata)
                 || (m.metadata != Some(metadata) && (locked || lockFree)
                     && (f.Ours? || (f.Missing? && m.tokens.None?)))
  {
  }

  /** The session's memory after responses that find the file as these, none of which reloads. */
  function AfterResponses(m: Memory, files: seq<File>, metadata: string, lockFree: nat -> bool): Memory
  {
    if files == [] then m
    else
      var n := |files| - 1;
      MetadataSave(AfterResponses(m, files[..n], metadata, lockFree), files[n], metadata, false, lockFree(n)).memory
  }

  /** A save skipped on a busy lock is not made up for by later responses with the same
      metadata, even with the lock free, as long as memory is not read from the file again. */
  lemma {:induction false} SkippedSaveIsLost(
    m: Memory, f: File, metadata: string, files: seq<File>, lockFree: nat -> bool, later: File, free: bool)
    requires m.metadata != Some(metadata)
    ensures var skipped := MetadataSave(m, f, metadata, false, false);
            var now := AfterResponses(skipped.memory, files, metadata, lockFree);
            && skipped.file == f
            && now == skipped.memory
            && MetadataSave(now, later, metadata, false, free).file == later
  {
    if files != [] { SkippedSaveIsLost(m, f, metadata, files[..|files| - 1], lockFree, later, free); }
  }

  /** It is made up for by the next refresh: that holds the lock, reads memory from the file
      again, and goes on only if the file has tokens. */
  lemma RefreshSaves(f: File, metadata: string, lockFree: bool)
    requires TokensIn(f).Some?
    ensures HoldsMetadata(MetadataSave(Loaded(f), f, metadata, true, lockFree).file, metadata)
  {
    SavedExactlyWhen(Loaded(f), f, metadata, true, lockFree);
  }

  class Disk {
    var file: File

    constructor (file: File)
      ensures this.file == file
    {
      this.file := file;
    }
  }

  class TokenFile {
    const disk: Disk
    var tokens: Option<Tokens>
    var expiresAt: Option<real>
    var metadata: Option<string>
    var client: Option<string>

    ghost function Mem(): Memory
      reads this
    {
      Memory(tokens, expiresAt, metadata, client)
    }

    constructor (disk: Disk)
      ensures this.disk == disk && Mem() == Loaded(disk.file)
    {
      this.disk := disk;
      tokens, expiresAt, metadata, client := None, None, None, None;
      new;
      Load();
    }

    method Load()
      requires Mem() == NOTHING
      modifies this
      ensures Mem() == Loaded(disk.file)
    {
      if disk.file.Ours? {
        tokens := disk.file.record.tokens;
        expiresAt := disk.file.record.expiresAt;
        metadata := disk.file.record.metadata;
        client := disk.file.record.client;
      }
    }

    /** Read the file again. Nothing is kept from memory, so a token that another process
        removed is not used. */
    method Reload()
      modifies this
      ensures Mem() == Loaded(disk.file)
    {
      tokens := None;
      expiresAt := None;
      metadata := None;
      client := None;
      Load();
    }

    method Save()
      modifies disk
      ensures disk.file == Ours(Mem())
    {
      disk.file := Ours(Memory(tokens, expiresAt, metadata, client));
    }

    method SetTokens(issued: Tokens, expires: Option<real>)
      modifies this, disk
      ensures Mem() == old(Mem()).(tokens := Some(issued), expiresAt := expires)
      ensures disk.file == Ours(Mem())
    {
      tokens := Some(issued);
      expiresAt := expires;
      Save();
    }

    method AdoptDiskTokens() returns (adopted: bool)
      requires !disk.file.Missing?
      modifies this
      ensures adopted == disk.file.Ours?
      ensures Mem() == if adopted then
                old(Mem()).(tokens := disk.file.record.tokens, expiresAt := disk.file.record.expiresAt)
              else old(Mem())
    {
      if !disk.file.Ours? { return false; }
      tokens := disk.file.record.tokens;
      expiresAt := disk.file.record.expiresAt;
      adopted := true;
    }

    method SaveShared(locked: bool, lockFree: bool)
      modifies this, disk
      ensures Shared(Mem(), disk.file) ==
                if locked || lockFree then SharedSave(old(Mem()), old(disk.file))
                else Shared(old(Mem()), old(disk.file))
    {
      if !locked && !lockFree { return; }
      if disk.file.Missing? {
        if tokens.Some? { return; }
      } else {
        var adopted := AdoptDiskTokens();
        if !adopted { return; }
      }
      Save();
    }

    method SetMetadata(found: string, locked: bool, lockFree: bool)
      modifies this, disk
      ensures Shared(Mem(), disk.file) == MetadataSave(old(Mem()), old(disk.file), found, locked, lockFree)
    {
      if metadata == Some(found) { return; }
      metadata := Some(found);
      SaveShared(locked, lockFree);
    }
  }
}
