/** The log directory as the writer and the cleanup sweep see it through the
    operating system: entry names mapped to regular files (their bytes) or
    sub-directories. Each system call takes a flag saying whether the system
    refuses it for reasons outside the model (permissions, a full disk). */
module Disk {
  import opened Text

  datatype Entry = File(data: string) | Dir(size: nat)

  /** `FileInfo.Size()`. */
  function Size(e: Entry): nat
  {
    match e
    case File(data) => |data|
    case Dir(size) => size
  }

  /** An `*os.File`: the entry it was opened on, and whether it is still open. */
  datatype FileHandle = FileHandle(name: string, isOpen: bool)

  /** Whether `os.Rename(from, to)` can go through: the source exists and,
      unless both are the same name, the target is absent or both are
      regular files. A directory at the target is refused (EEXIST), and so
      is moving a directory onto a regular file (ENOTDIR). */
  predicate CanRename(entries: map<string, Entry>, from: string, to: string): (r: bool)
    ensures r ==> from in entries
    ensures r && from != to ==> !(to in entries && entries[to].Dir?)
    ensures from in entries && to !in entries ==> r
  {
    from in entries &&
    (from == to || to !in entries || (entries[from].File? && entries[to].File?))
  }

  /** The directory after `os.Rename(from, to)`. */
  function Renamed(entries: map<string, Entry>, from: string, to: string): (r: map<string, Entry>)
    requires from in entries
    ensures to in r && r[to] == entries[from]
    ensures from != to ==> from !in r
    ensures forall n :: n in entries && n != from && n != to ==> n in r && r[n] == entries[n]
    ensures forall n :: n in r ==> n == to || n in entries
  {
    (entries - {from})[to := entries[from]]
  }

  /** The directory after a successful write of `msg` through a handle on
      `name`: a regular file grows by the bytes; a name no longer in the
      directory (the file was unlinked while open) shows nothing. */
  function Appended(entries: map<string, Entry>, name: string, msg: string): (r: map<string, Entry>)
    ensures r.Keys == entries.Keys
    ensures forall n :: n in entries && n != name ==> r[n] == entries[n]
    ensures name in entries && entries[name].File? ==> r[name] == File(entries[name].data + msg)
    ensures name in entries && entries[name].Dir? ==> r[name] == entries[name]
  {
    if name in entries && entries[name].File? then entries[name := File(entries[name].data + msg)]
    else entries
  }

  class LogDirectory {
    var entries: map<string, Entry>

    constructor (entries: map<string, Entry>)
      ensures this.entries == entries
    {
      this.entries := entries;
    }

    /** `os.Stat`: fails exactly when the name is absent. */
    method Stat(name: string) returns (size: nat, ok: bool)
      ensures ok <==> name in entries
      ensures ok ==> size == Size(entries[name])
    {
      ok := name in entries;
      size := if ok then Size(entries[name]) else 0;
    }

    /** `os.Rename`: moves the entry, replacing whatever had the new name. */
    method Rename(from: string, to: string, fails: bool) returns (ok: bool)
      modifies this
      ensures ok <==> !fails && CanRename(old(entries), from, to)
      ensures entries == if ok then Renamed(old(entries), from, to) else old(entries)
    {
      ok := !fails && CanRename(entries, from, to);
      if ok {
        entries := Renamed(entries, from, to);
      }
    }

    /** `os.OpenFile(name, O_CREATE|O_APPEND|O_RDWR)`: creates an empty file
        when the name is absent; a directory cannot be opened for writing. */
    method OpenFile(name: string, fails: bool) returns (h: Option<FileHandle>)
      modifies this
      ensures h.Some? <==> !fails && !(name in old(entries) && old(entries)[name].Dir?)
      ensures h.Some? ==> h.value == FileHandle(name, true)
      ensures entries ==
        if h.Some? && name !in old(entries) then old(entries)[name := File([])] else old(entries)
    {
      if fails || (name in entries && entries[name].Dir?) {
        h := None;
      } else {
        if name !in entries {
          entries := entries[name := File([])];
        }
        h := Some(FileHandle(name, true));
      }
    }

    /** `File.Write`: fails on a closed handle. */
    method Write(h: FileHandle, msg: string, fails: bool) returns (ok: bool)
      modifies this
      ensures ok <==> h.isOpen && !fails
      ensures entries == if ok then Appended(old(entries), h.name, msg) else old(entries)
    {
      ok := h.isOpen && !fails;
      if ok {
        entries := Appended(entries, h.name, msg);
      }
    }

    /** `os.Remove`. */
    method Remove(name: string, fails: bool) returns (ok: bool)
      modifies this
      ensures ok <==> !fails && name in old(entries)
      ensures entries == if ok then old(entries) - {name} else old(entries)
    {
      ok := !fails && name in entries;
      if ok {
        entries := entries - {name};
      }
    }
  }
}
