/**
 The upload directory as the degraded (no-database) mode sees it: a listing
 of `(name, size, mtime)` entries, or no directory at all. File names are the
 stored names `<epoch-ms>-<token>-<original name>`; the MIME type of an entry
 comes from a name-based lookup (the `mime-types` package), which the model
 takes as a parameter.
 */
module UploadDir {

  import opened Common
  import opened Constants
  import opened FileHelper

  /** One entry of `fs.readdirSync` with the `size` and `mtime` of its
      `fs.statSync`; `mtime` is in milliseconds since the epoch. */
  datatype DirEntry = DirEntry(name: string, size: nat, mtime: int)

  /** The MIME lookup by file name: `None` where the package returns `false`. */
  type MimeLookup = string -> Option<string>

  /** The fallback written at every directory scan but one. */
  const OctetStream: string := "application/octet-stream"

  /** The fallback of the degraded storage breakdown, with a stray backquote. */
  const MisspelledOctetStream: string := "application/o`ctet-stream"

  /** `lookup(path) || fallback`. */
  function MimeOf(lookup: MimeLookup, name: string, fallback: string): (m: string)
    ensures lookup(name).Some? ==> m == lookup(name).value
    ensures lookup(name).None? ==> m == fallback
  {
    match lookup(name)
    case Some(v) => v
    case None => fallback
  }

  /** Both fallbacks classify as `unknown`, so the stray backquote changes no
      result. */
  lemma FallbacksAreUnknown()
    ensures GetFileCategory(OctetStream) == Unknown
    ensures GetFileCategory(MisspelledOctetStream) == Unknown
  {
    NotAKey(OctetStream);
    NotAKey(MisspelledOctetStream);
  }

  /** What an aggregate sees of a directory entry. */
  function EntryItem(lookup: MimeLookup, e: DirEntry, fallback: string): Item
  {
    Item(GetFileCategory(MimeOf(lookup, e.name, fallback)), e.size)
  }

  function EntryItems(lookup: MimeLookup, entries: seq<DirEntry>, fallback: string): (items: seq<Item>)
    ensures |items| == |entries|
    ensures forall i :: 0 <= i < |entries| ==> items[i] == EntryItem(lookup, entries[i], fallback)
  {
    seq(|entries|, i requires 0 <= i < |entries| => EntryItem(lookup, entries[i], fallback))
  }

  /** Which of the two fallbacks a scan uses makes no difference to what it
      counts. */
  lemma FallbackIrrelevant(lookup: MimeLookup, entries: seq<DirEntry>)
    ensures EntryItems(lookup, entries, MisspelledOctetStream) == EntryItems(lookup, entries, OctetStream)
  {
    FallbacksAreUnknown();
    var a := EntryItems(lookup, entries, MisspelledOctetStream);
    var b := EntryItems(lookup, entries, OctetStream);
    forall i | 0 <= i < |entries|
      ensures a[i] == b[i]
    {
      if lookup(entries[i].name).None? {
        assert MimeOf(lookup, entries[i].name, MisspelledOctetStream) == MisspelledOctetStream;
        assert MimeOf(lookup, entries[i].name, OctetStream) == OctetStream;
      }
    }
  }

  /** The entries of the directory, none when it does not exist. */
  function Entries(dir: Option<seq<DirEntry>>): seq<DirEntry>
  {
    if dir.Some? then dir.value else []
  }
}
