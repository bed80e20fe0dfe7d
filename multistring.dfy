/** The null-delimited multi-string `pg_get_databases` returns
    (src/pg_discovery.c): "name1\0name2\0...nameN\0\0". */
module MultiString {
  import opened CStrings

  /** Each name followed by its terminator, in order. */
  function Packed(names: seq<string>): seq<char>
  {
    if names == [] then [] else Packed(names[..|names| - 1]) + names[|names| - 1] + ['\0']
  }

  /** The multi-string: the packed names and the final terminator. */
  function Joined(names: seq<string>): seq<char>
  {
    Packed(names) + ['\0']
  }

  /** The buffer size the source computes: 1 + the sum of (length + 1). */
  function SizeSum(names: seq<string>): nat
  {
    if names == [] then 0 else SizeSum(names[..|names| - 1]) + |names[|names| - 1]| + 1
  }

  /** The multi-string exactly fills the computed buffer. */
  lemma {:induction false} PackedLength(names: seq<string>)
    ensures |Packed(names)| == SizeSum(names)
    ensures |Joined(names)| == 1 + SizeSum(names)
  {
    if names != [] {
      PackedLength(names[..|names| - 1]);
    }
  }

  /** Packing distributes over concatenation of name lists. */
  lemma {:induction false} PackedAppend(a: seq<string>, b: seq<string>)
    ensures Packed(a + b) == Packed(a) + Packed(b)
  {
    if b != [] {
      var b' := b[..|b| - 1];
      assert (a + b)[..|a + b| - 1] == a + b';
      PackedAppend(a, b');
    } else {
      assert a + b == a;
    }
  }

  /** Where the k-th name starts in the multi-string. */
  function Offset(names: seq<string>, k: nat): nat
    requires k <= |names|
  {
    |Packed(names[..k])|
  }

  /** The multi-string around name k: the names before it, name k and its
      terminator, the names after it, and the final terminator. */
  lemma JoinedAround(names: seq<string>, k: nat)
    requires k < |names|
    ensures Joined(names) == Packed(names[..k]) + names[k] + ['\0'] + Packed(names[k + 1..]) + ['\0']
    ensures Offset(names, k + 1) == Offset(names, k) + |names[k]| + 1
  {
    PackedAppend(names[..k], names[k..]);
    assert names[..k] + names[k..] == names;
    PackedAppend([names[k]], names[k + 1..]);
    assert [names[k]] + names[k + 1..] == names[k..];
    assert Packed([names[k]]) == names[k] + ['\0'] by {
      assert [names[k]][..0] == [];
    }
    assert names[..k + 1][..k] == names[..k];
  }

  /** Walking step: at the offset of name k the multi-string holds name k and
      its terminator. */
  lemma MultiStringAt(names: seq<string>, k: nat)
    requires k < |names|
    ensures Offset(names, k) + |names[k]| < |Joined(names)|
    ensures Joined(names)[Offset(names, k)..Offset(names, k) + |names[k]|] == names[k]
    ensures Joined(names)[Offset(names, k) + |names[k]|] == '\0'
    ensures Offset(names, k + 1) == Offset(names, k) + |names[k]| + 1
  {
    JoinedAround(names, k);
    var p := Packed(names[..k]);
    var ms := Joined(names);
    assert ms[|p|..|p| + |names[k]|] == names[k];
  }

  /** Past the last name, the walk finds the final terminator. */
  lemma MultiStringEnd(names: seq<string>)
    ensures Offset(names, |names|) == |Joined(names)| - 1
    ensures Joined(names)[Offset(names, |names|)] == '\0'
  {
    assert names[..|names|] == names;
  }

  /** The walk's loop test: the byte at name k's offset is a terminator
      exactly when name k is empty (its names being C strings). */
  lemma WalkTest(names: seq<string>, k: nat)
    requires k < |names| && CString(names[k])
    ensures Offset(names, k) < |Joined(names)|
    ensures Joined(names)[Offset(names, k)] == '\0' <==> names[k] == ""
  {
    MultiStringAt(names, k);
    if names[k] != "" {
      var o := Offset(names, k);
      assert Joined(names)[o] == Joined(names)[o..o + |names[k]|][0];
    }
  }

  /** Measuring the name at a walk position up to its terminator recovers
      exactly that name. */
  lemma NameAt(names: seq<string>, k: nat, n: nat)
    requires k < |names| && CString(names[k])
    requires Offset(names, k) + n < |Joined(names)|
    requires Joined(names)[Offset(names, k) + n] == '\0'
    requires CString(Joined(names)[Offset(names, k)..Offset(names, k) + n])
    ensures n == |names[k]|
    ensures Joined(names)[Offset(names, k)..Offset(names, k) + n] == names[k]
  {
    MultiStringAt(names, k);
  }

  /** The index of the first empty name, or the number of names: the walk
      `db += strlen(db) + 1` stops there. */
  function FirstEmpty(names: seq<string>): (k: nat)
    ensures k <= |names|
    ensures forall i :: 0 <= i < k ==> names[i] != ""
    ensures k < |names| ==> names[k] == ""
  {
    if names == [] || names[0] == "" then 0 else 1 + FirstEmpty(names[1..])
  }

  /** With no empty name, the walk visits every name, in order. */
  lemma WalkVisitsAll(names: seq<string>)
    requires forall i :: 0 <= i < |names| ==> names[i] != ""
    ensures names[..FirstEmpty(names)] == names
  {
  }

  /** An empty name cuts the walk short: the names after it are not visited. */
  lemma WalkStopsAtEmpty(names: seq<string>, k: nat)
    requires k < |names| && names[k] == ""
    ensures FirstEmpty(names) <= k
    ensures |names[..FirstEmpty(names)]| < |names|
  {
  }

  /** The builder in `pg_get_databases`: size the buffer with one loop, zero
      it, then copy each name through cursor `c`, stepping past each
      terminator. */
  method BuildMultiString(names: seq<string>) returns (databases: array<char>)
    ensures databases.Length == 1 + SizeSum(names)
    ensures databases[..] == Joined(names)
  {
    var bufferLen := BufferSize(names);
    databases := new char[bufferLen](_ => '\0');
    var c := 0;
    for i := 0 to |names|
      invariant c == |Packed(names[..i])|
      invariant ZeroedAfter(databases, Packed(names[..i]))
    {
      FillStep(names, i);
      c := Append(databases, c, names[i], Packed(names[..i]));
      ZeroedAfterTerminator(databases, Packed(names[..i]) + names[i]);
      c := c + 1;
    }
    assert names[..|names|] == names;
    PackedLength(names);
    FilledBuffer(databases, Packed(names));
  }

  /** The sizing loop of `pg_get_databases`. */
  method BufferSize(names: seq<string>) returns (bufferLen: nat)
    ensures bufferLen == 1 + SizeSum(names)
  {
    bufferLen := 1;
    for i := 0 to |names|
      invariant bufferLen == 1 + SizeSum(names[..i])
    {
      assert names[..i + 1][..i] == names[..i];
      bufferLen := bufferLen + |names[i]| + 1;
    }
    assert names[..|names|] == names;
  }

  /** One step of the filling loop: name i and its terminator extend the
      packed prefix, and still fit in the buffer. */
  lemma FillStep(names: seq<string>, i: nat)
    requires i < |names|
    ensures Packed(names[..i + 1]) == Packed(names[..i]) + names[i] + ['\0']
    ensures |Packed(names[..i])| + |names[i]| < 1 + SizeSum(names)
  {
    assert names[..i + 1][..i] == names[..i];
    PackedAppend(names[..i + 1], names[i + 1..]);
    assert names[..i + 1] + names[i + 1..] == names;
    PackedLength(names);
  }
}
