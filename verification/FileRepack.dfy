/**
 How a posted file travels inside one buffer: the core puts the base name, a NUL and the content
 together, and the slave that serves the post takes them apart again.
 */
module FileRepack {
  import opened Prelude
  import opened Wire

  const SLASH: byte := 47
  const DOT: byte := 46

  /** `strlen`: the number of bytes before the first NUL. */
  function StrLen(b: seq<byte>): (n: nat)
    requires 0 in b
    ensures n < |b| && b[n] == 0 && 0 !in b[..n]
  {
    if b[0] == 0 then 0 else 1 + StrLen(b[1..])
  }

  function CString(b: seq<byte>): seq<byte>
    requires 0 in b
  {
    b[..StrLen(b)]
  }

  lemma {:induction false} StrLenOf(name: seq<byte>, rest: seq<byte>)
    requires 0 !in name
    ensures 0 in name + [0] + rest && StrLen(name + [0] + rest) == |name|
  {
    var b := name + [0] + rest;
    assert b[|name|] == 0;
    if name != [] {
      assert b[0] == name[0] && b[1..] == name[1..] + [0] + rest;
      StrLenOf(name[1..], rest);
    }
  }

  // ---------------------------------------------------------------- base names

  function StripSlashes(path: seq<byte>): (r: seq<byte>)
    ensures r <= path && (r == [] || r[|r| - 1] != SLASH)
    ensures r == [] ==> forall i :: 0 <= i < |path| ==> path[i] == SLASH
  {
    if path == [] || path[|path| - 1] != SLASH then path else StripSlashes(path[..|path| - 1])
  }

  function LastSlash(path: seq<byte>): (k: int)
    ensures -1 <= k < |path| && (k >= 0 ==> path[k] == SLASH)
    ensures forall j :: k < j < |path| ==> path[j] != SLASH
  {
    if path == [] then -1
    else if path[|path| - 1] == SLASH then |path| - 1
    else LastSlash(path[..|path| - 1])
  }

  /** `basename` as POSIX defines it. */
  function BaseName(path: seq<byte>): seq<byte> {
    if path == [] then [DOT] else
      var stripped := StripSlashes(path);
      if stripped == [] then [SLASH] else stripped[LastSlash(stripped) + 1..]
  }

  lemma PlainIsItsOwnBase(name: seq<byte>)
    requires name != [] && SLASH !in name
    ensures BaseName(name) == name
  {
    assert name[|name| - 1] in name;
    assert name[0..] == name;
  }

  /** A base name is a single component: not empty, without a NUL if the path had none, without a
      slash unless the path had nothing else; and it is its own base name. */
  lemma BaseNameIsComponent(path: seq<byte>)
    requires 0 !in path
    ensures BaseName(path) != [] && 0 !in BaseName(path)
    ensures SLASH in BaseName(path) ==> BaseName(path) == [SLASH] && forall i :: 0 <= i < |path| ==> path[i] == SLASH
    ensures BaseName(BaseName(path)) == BaseName(path)
  {
    var r := BaseName(path);
    if path != [] && StripSlashes(path) == [] {
      assert StripSlashes([SLASH]) == StripSlashes([SLASH][..0]) == [];
    } else {
      assert SLASH !in r;
      PlainIsItsOwnBase(r);
    }
  }

  predicate AllSlashes(e: seq<byte>) {
    forall i :: 0 <= i < |e| ==> e[i] == SLASH
  }

  lemma {:induction false} StripsRun(path: seq<byte>, e: seq<byte>)
    requires path != [] && path[|path| - 1] != SLASH && AllSlashes(e)
    ensures StripSlashes(path + e) == path
  {
    if e == [] {
      assert path + e == path;
    } else {
      var all := path + e;
      assert all[|all| - 1] == e[|e| - 1] == SLASH && all[..|all| - 1] == path + e[..|e| - 1];
      StripsRun(path, e[..|e| - 1]);
    }
  }

  /** The file's name is what stands behind the last slash, whatever slashes follow it. */
  lemma BaseNameInDirectory(directory: seq<byte>, name: seq<byte>, slashes: seq<byte>)
    requires name != [] && SLASH !in name && AllSlashes(slashes)
    ensures BaseName(directory + [SLASH] + name + slashes) == name
  {
    var path := directory + [SLASH] + name;
    assert name[|name| - 1] in name;
    StripsRun(path, slashes);
    var k := LastSlash(path);
    assert path[|directory|] == SLASH;
    forall j | |directory| < j < |path| ensures path[j] != SLASH {
      assert path[j] == name[j - |directory| - 1] && path[j] in name;
    }
    assert k == |directory|;
    assert path[k + 1..] == name;
  }

  /** A path without a directory is the name. */
  lemma BaseNameAlone(name: seq<byte>, slashes: seq<byte>)
    requires name != [] && SLASH !in name && AllSlashes(slashes)
    ensures BaseName(name + slashes) == name
  {
    assert name[|name| - 1] in name;
    StripsRun(name, slashes);
    assert name[0..] == name;
  }

  /** What is left: an empty path, and a path of nothing but slashes. */
  lemma BaseNameOfNothing(slashes: seq<byte>)
    requires AllSlashes(slashes)
    ensures BaseName(slashes) == if slashes == [] then [DOT] else [SLASH]
  {
  }

  // ---------------------------------------------------------------- the shared buffer

  function Joined(name: seq<byte>, content: seq<byte>): seq<byte> {
    name + [0] + content
  }

  /** The file name the slave sees, and the bytes it writes. */
  function NameIn(buf: seq<byte>): seq<byte>
    requires 0 in buf
  {
    CString(buf)
  }

  function ContentIn(buf: seq<byte>): seq<byte>
    requires 0 in buf
  {
    buf[StrLen(buf) + 1..]
  }

  /** Taking apart undoes putting together for every content, zero bytes included, and every name
      without a NUL; and putting together undoes taking apart. */
  lemma RepackRoundTrip(name: seq<byte>, content: seq<byte>)
    requires 0 !in name
    ensures 0 in Joined(name, content)
    ensures NameIn(Joined(name, content)) == name && ContentIn(Joined(name, content)) == content
    ensures |Joined(name, content)| - |name| - 1 == |content|
  {
    StrLenOf(name, content);
  }

  lemma UnpackRoundTrip(buf: seq<byte>)
    requires 0 in buf
    ensures Joined(NameIn(buf), ContentIn(buf)) == buf && 0 !in NameIn(buf)
  {
  }

  /** The combined length always fits the 32-bit length field. */
  lemma CombinedLengthFits(path: seq<byte>, content: seq<byte>)
    requires 0 < |path| <= MAX_BODY && |content| <= MAX_BODY
    ensures |Joined(BaseName(path), content)| < 0x1_0000_0000
  {
  }

  function Terminated(buf: seq<byte>): (r: seq<byte>)
    requires buf != []
    ensures 0 in r && |r| == |buf|
  {
    var r := buf[|buf| - 1 := 0];
    assert r[|buf| - 1] == 0;
    r
  }

  lemma IsJoined(buf: seq<byte>, name: seq<byte>, content: seq<byte>)
    requires |buf| == |name| + 1 + |content|
    requires forall i :: 0 <= i < |name| ==> buf[i] == name[i]
    requires buf[|name|] == 0
    requires forall i :: 0 <= i < |content| ==> buf[|name| + 1 + i] == content[i]
    ensures buf == Joined(name, content)
  {
    forall k | 0 <= k < |buf| ensures buf[k] == Joined(name, content)[k] {
      if k > |name| {
        assert buf[|name| + 1 + (k - |name| - 1)] == content[k - |name| - 1];
      }
    }
  }

  /** `strcpy` and `memcpy` into the new buffer. */
  method FillBuffer(temp: seq<byte>, content: array<byte>) returns (filled: array<byte>)
    ensures fresh(filled) && filled[..] == Joined(temp, content[..])
  {
    var at := |temp| + 1;
    filled := new byte[at + content.Length](_ => 0);
    forall i | 0 <= i < |temp| {
      filled[i] := temp[i];
    }
    filled[|temp|] := 0;
    forall i | 0 <= i < content.Length {
      filled[at + i] := content[i];
    }
    IsJoined(filled[..], temp, content[..]);
  }

  /** The core's side: the name's buffer is terminated in place, the content is limited, and a new
      buffer is filled. */
  method AssembleFile(name: array<byte>, content: array<byte>, maxFileSize: nat) returns (buf: array?<byte>)
    requires name.Length > 0 && name != content
    modifies name
    ensures buf == null <==> content.Length > maxFileSize * 1024
    ensures buf != null ==>
      && fresh(buf)
      && buf[..] == Joined(BaseName(CString(Terminated(old(name[..])))), old(content[..]))
  {
    if content.Length > maxFileSize * 1024 {
      return null;
    }
    name[name.Length - 1] := 0;
    assert name[..] == Terminated(old(name[..])) && content[..] == old(content[..]);
    var temp := BaseName(CString(name[..]));
    buf := FillBuffer(temp, content);
  }

  /** What becomes of a posted file. Writing nothing counts as a failed write, which ends the
      server. */
  datatype Outcome = FileTooLong | EmptyWrite | Stored(name: seq<byte>, content: seq<byte>)

  /** The slave's side: the position after the first NUL, and as many bytes as the length leaves. */
  method TakeFile(buf: array<byte>) returns (r: Outcome)
    requires 0 in buf[..]
    ensures r == if ContentIn(buf[..]) == [] then EmptyWrite else Stored(NameIn(buf[..]), ContentIn(buf[..]))
  {
    var filename := CString(buf[..]);
    var start := StrLen(buf[..]) + 1;
    var count := buf.Length - |filename| - 1;
    if count <= 0 {
      return EmptyWrite;
    }
    return Stored(filename, buf[start..start + count]);
  }

  /** The whole path: what is written is the content the client sent, byte for byte, under the
      base name of the path it sent. */
  method StoreFile(name: array<byte>, content: array<byte>, maxFileSize: nat) returns (r: Outcome)
    requires name.Length > 0 && name != content
    modifies name
    ensures r == if content.Length > maxFileSize * 1024 then FileTooLong
                 else if content.Length == 0 then EmptyWrite
                 else Stored(BaseName(CString(Terminated(old(name[..])))), old(content[..]))
  {
    var buf := AssembleFile(name, content, maxFileSize);
    if buf == null {
      return FileTooLong;
    }
    ghost var path := CString(Terminated(old(name[..])));
    BaseNameIsComponent(path);
    RepackRoundTrip(BaseName(path), old(content[..]));
    r := TakeFile(buf);
  }

  /** A path sent as directory, slash and name, terminated as the client does: StoreFile stores the file
      under that name, whatever the directory and whatever slashes follow. */
  lemma StoredUnder(directory: seq<byte>, name: seq<byte>, slashes: seq<byte>)
    requires name != [] && SLASH !in name && 0 !in name && 0 !in directory && AllSlashes(slashes)
    ensures BaseName(CString(Terminated(directory + [SLASH] + name + slashes + [0]))) == name
  {
    var path := directory + [SLASH] + name + slashes;
    assert Terminated(path + [0]) == path + [0] + [];
    StrLenOf(path, []);
    BaseNameInDirectory(directory, name, slashes);
  }
}
