/**
 * A multipart form body as the browser's `FormData` holds it: an ordered list of named
 * entries, each a text or a file. `append` adds at the end and `get` returns the first entry
 * with the name.
 */
module FormData {
  import opened Wrappers
  import opened Types

  datatype FormValue = Text(text: string) | Upload(file: FileRef)

  type Entries = seq<(string, FormValue)>

  /** `formData.get(key)`: the first entry named `key`, or `null`. */
  function Get(fd: Entries, key: string): (r: Option<FormValue>)
    ensures r.None? <==> forall i :: 0 <= i < |fd| ==> fd[i].0 != key
    ensures r.Some? ==> exists i :: 0 <= i < |fd| && fd[i] == (key, r.value) && forall j :: 0 <= j < i ==> fd[j].0 != key
  {
    if fd == [] then None
    else if fd[0].0 == key then Some(fd[0].1)
    else
      var r := Get(fd[1..], key);
      assert r.Some? ==> exists i :: 0 <= i < |fd| && fd[i] == (key, r.value) && forall j :: 0 <= j < i ==> fd[j].0 != key by {
        if r.Some? {
          var i :| 0 <= i < |fd[1..]| && fd[1..][i] == (key, r.value) && forall j :: 0 <= j < i ==> fd[1..][j].0 != key;
          assert fd[i + 1] == (key, r.value);
          forall j | 0 <= j < i + 1 ensures fd[j].0 != key {
            if j > 0 { assert fd[j] == fd[1..][j - 1]; }
          }
        }
      }
      r
  }

  /** `formData.get(key) as string`: the text of the first entry named `key`; a file there reads as missing. */
  function GetText(fd: Entries, key: string): Option<string> {
    match Get(fd, key)
    case Some(Text(t)) => Some(t)
    case _ => None
  }

  /** `formData.get(key) as File | null`: the first entry named `key` when it is a file. */
  function GetFile(fd: Entries, key: string): Option<FileRef> {
    match Get(fd, key)
    case Some(Upload(f)) => Some(f)
    case _ => None
  }

  /** `formData.append(key, value)`. */
  function Append(fd: Entries, key: string, value: FormValue): (r: Entries)
    ensures |r| == |fd| + 1 && r[..|fd|] == fd && r[|fd|] == (key, value)
  {
    fd + [(key, value)]
  }

  /** Appending never changes what `get` returns for a name already present, and defines an absent one. */
  lemma GetAfterAppend(fd: Entries, key: string, value: FormValue, other: string)
    ensures Get(fd, other).Some? ==> Get(Append(fd, key, value), other) == Get(fd, other)
    ensures Get(fd, other).None? ==> Get(Append(fd, key, value), other) == (if other == key then Some(value) else None)
  {
    var r := Append(fd, key, value);
    if Get(fd, other).Some? {
      GetPrefix(fd, [(key, value)], other);
    } else {
      GetPrefix(fd, [(key, value)], other);
    }
  }

  lemma {:induction false} GetPrefix(a: Entries, b: Entries, key: string)
    ensures Get(a + b, key) == if Get(a, key).Some? then Get(a, key) else Get(b, key)
  {
    if a == [] {
      assert a + b == b;
    } else {
      assert (a + b)[0] == a[0];
      assert (a + b)[1..] == a[1..] + b;
      GetPrefix(a[1..], b, key);
    }
  }
}
