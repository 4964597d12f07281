/** The data directory of `server.js` as a map from file name to the JSON
    value the file holds, and what its two helpers do to it. */
module DataFiles {
  import opened Js

  type Files = map<string, Json>

  /** The directory after `readJSON(file, fallback)`: a missing file is
      created holding the fallback; an existing one is left alone. */
  function Seed(files: Files, file: string, fallback: Json): (r: Files)
    ensures file in r && r.Keys == files.Keys + {file}
    ensures forall f :: f in files ==> r[f] == files[f]
    ensures file !in files ==> r[file] == fallback
  {
    if file in files then files else files[file := fallback]
  }

  /** `data ?? {}`: what `writeJSON` stores for `data`. */
  function Coalesce(data: Option<Json>): (r: Json)
    ensures !r.Null?
    ensures data.Some? && !data.value.Null? ==> r == data.value
  {
    match data
    case None => Obj(map[])
    case Some(Null) => Obj(map[])
    case Some(v) => v
  }

  /** Reading a missing file creates it with the fallback and returns the
      fallback; no other file appears, disappears or changes. */
  lemma ReadMissing(files: Files, file: string, fallback: Json)
    requires file !in files
    ensures file in Seed(files, file, fallback) && Seed(files, file, fallback)[file] == fallback
    ensures Seed(files, file, fallback).Keys == files.Keys + {file}
    ensures forall f :: f in files ==> Seed(files, file, fallback)[f] == files[f]
  {
  }

  /** Reading an existing file returns its value and changes nothing. */
  lemma ReadPresent(files: Files, file: string, fallback: Json)
    requires file in files
    ensures Seed(files, file, fallback) == files
    ensures Seed(files, file, fallback)[file] == files[file]
  {
  }

  /** A second read, whatever its fallback, returns what the first returned
      and changes nothing. */
  lemma ReadIdempotent(files: Files, file: string, fallback: Json, fallback': Json)
    ensures var once := Seed(files, file, fallback);
      Seed(once, file, fallback') == once && Seed(once, file, fallback')[file] == once[file]
  {
  }

  /** `writeJSON` replaces the whole value of one file and touches no other;
      reading it back, whatever the fallback, returns what was written, with
      null or undefined written as `{}`. */
  lemma WriteThenRead(files: Files, file: string, data: Option<Json>, fallback: Json)
    ensures var written := files[file := Coalesce(data)];
      && Seed(written, file, fallback)[file] == Coalesce(data)
      && written.Keys == files.Keys + {file}
      && (forall f :: f in files && f != file ==> written[f] == files[f])
    ensures !Coalesce(data).Null?
    ensures (data == None || data == Some(Null)) ==> Coalesce(data) == Obj(map[])
  {
  }
}
