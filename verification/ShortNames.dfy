/** 8+3 file names (kernel/fat.cpp:47-67, 114-129, 189-204). */
module ShortNames {
  import opened Common

  const SPACE: Byte := 0x20
  const DOT: Byte := 0x2e
  const SLASH: Byte := 0x2f

  type Name = n: seq<Byte> | |n| == 11 witness seq(11, _ => 0x20)

  function Upper(c: Byte): Byte {
    if 0x61 <= c <= 0x7a then c - 0x20 else c
  }

  const SMALL: string := "abcdefghijklmnopqrstuvwxyz"
  const CAPITAL: string := "ABCDEFGHIJKLMNOPQRSTUVWXYZ"

  /** The small letters of ASCII become the capitals, and no other byte is changed. */
  lemma UpperLetters(c: Byte, i: nat)
    requires i < 26
    ensures Upper(SMALL[i] as int) == CAPITAL[i] as int
    ensures Upper(c) != c <==> 'a' as int <= c <= 'z' as int
    ensures !('a' as int <= Upper(c) <= 'z' as int)
  {
    assert SMALL[i] == 'a' + i as char && CAPITAL[i] == 'A' + i as char;
  }

  function Uppercase(s: seq<Byte>): (r: seq<Byte>)
    ensures |r| == |s|
  {
    seq(|s|, i requires 0 <= i < |s| => Upper(s[i]))
  }

  const BLANK: Name := [SPACE, SPACE, SPACE, SPACE, SPACE, SPACE, SPACE, SPACE, SPACE, SPACE, SPACE]

  /** A part of a short name as it is written: no dots, slashes or trailing spaces. */
  predicate Part(s: seq<Byte>, size: nat) {
    && |s| <= size
    && (forall i :: 0 <= i < |s| ==> s[i] != 0 && s[i] != DOT && s[i] != SLASH && s[i] < 0x80)
    && (s != [] ==> s[|s| - 1] != SPACE)
  }

  /** The names of the 8+3 format. */
  predicate Valid(base: seq<Byte>, ext: seq<Byte>) {
    base != [] && Part(base, 8) && Part(ext, 3)
  }

  function Join(base: seq<Byte>, ext: seq<Byte>): seq<Byte> {
    if ext == [] then base else base + [DOT] + ext
  }

  function Pad(s: seq<Byte>, size: nat): (r: seq<Byte>)
    requires |s| <= size
    ensures |r| == size
  {
    s + seq(size - |s|, _ => SPACE)
  }

  /** How a name is stored in an entry. */
  function Stored83(base: seq<Byte>, ext: seq<Byte>): Name
    requires |base| <= 8 && |ext| <= 3
  {
    Uppercase(Pad(base, 8) + Pad(ext, 3))
  }

  // ----- the code

  /** The length without the spaces at the end. */
  function Trimmed(s: seq<Byte>): (n: nat)
    ensures n <= |s| && (n > 0 ==> s[n - 1] != SPACE) && forall i :: n <= i < |s| ==> s[i] == SPACE
  {
    if s != [] && s[|s| - 1] == SPACE then Trimmed(s[..|s| - 1]) else |s|
  }

  method TrimLoop(field: seq<Byte>) returns (n: nat)
    ensures n == Trimmed(field)
  {
    n := |field|;
    assert field[..n] == field;
    while n > 0 && field[n - 1] == SPACE
      invariant n <= |field| && Trimmed(field[..n]) == Trimmed(field)
    {
      assert field[..n][..n - 1] == field[..n - 1];
      n := n - 1;
    }
  }

  /** ReadName: both parts of an entry's name. */
  method ReadName(name: Name) returns (base: seq<Byte>, ext: seq<Byte>)
    ensures base == name[..8][..Trimmed(name[..8])] && ext == name[8..][..Trimmed(name[8..])]
  {
    var n := TrimLoop(name[..8]);
    base := name[..8][..n];
    var m := TrimLoop(name[8..]);
    ext := name[8..][..m];
  }

  /** FormatName: "<base>" or "<base>.<ext>". */
  method FormatName(name: Name) returns (dest: seq<Byte>)
    ensures dest == Format(name)
  {
    var base, ext := ReadName(name);
    dest := base;
    if ext != [] {
      dest := dest + [DOT] + ext;
    }
  }

  function Format(name: Name): seq<Byte> {
    Join(name[..8][..Trimmed(name[..8])], name[8..][..Trimmed(name[8..])])
  }

  /** What NameIsEqual compares with: characters go to consecutive places, a dot moves on to the extension. */
  function Expand(name: seq<Byte>, i: nat, i83: nat, name83: Name): Name
    requires i <= |name|
    decreases |name| - i
  {
    if i == |name| || i83 >= 11 then name83
    else if name[i] == DOT then Expand(name, i + 1, 8, name83)
    else Expand(name, i + 1, i83 + 1, name83[i83 := Upper(name[i])])
  }

  method NameIsEqual(entryName: Name, name: seq<Byte>) returns (equal: bool)
    ensures equal == (entryName == Expand(name, 0, 0, BLANK))
  {
    var name83: Name := seq(11, _ => SPACE);
    assert name83 == BLANK;
    var i, i83: nat := 0, 0;
    while i < |name| && i83 < 11
      invariant i <= |name| && Expand(name, i, i83, name83) == Expand(name, 0, 0, BLANK)
      decreases |name| - i
    {
      if name[i] == DOT {
        i, i83 := i + 1, 8;
        continue;
      }
      name83 := name83[i83 := Upper(name[i])];
      i, i83 := i + 1, i83 + 1;
    }
    return entryName == name83;
  }

  /** The place of the last such byte. */
  function LastOf(c: Byte, s: seq<Byte>): (r: Option<nat>)
    ensures r.Some? ==> r.value < |s| && s[r.value] == c && forall i :: r.value < i < |s| ==> s[i] != c
    ensures r.None? ==> c !in s
  {
    if s == [] then None
    else if s[|s| - 1] == c then Some(|s| - 1)
    else
      assert s == s[..|s| - 1] + [s[|s| - 1]];
      LastOf(c, s[..|s| - 1])
  }

  /** Capitals written over a part of a stored name. */
  function Put(stored: Name, at: nat, bytes: seq<Byte>): Name
    requires at + |bytes| <= 11
  {
    stored[..at] + Uppercase(bytes) + stored[at + |bytes|..]
  }

  lemma PutNext(stored: Name, at: nat, bytes: seq<Byte>, c: Byte)
    requires at + |bytes| < 11
    ensures Put(stored, at, bytes)[at + |bytes| := Upper(c)] == Put(stored, at, bytes + [c])
  {
  }

  lemma PutNothing(stored: Name, at: nat)
    requires at <= 11
    ensures Put(stored, at, []) == stored
  {
  }

  lemma PutBoth(base: seq<Byte>, ext: seq<Byte>)
    requires |base| <= 8 && |ext| <= 3
    ensures Put(Put(BLANK, 0, base), 8, ext) == Stored83(base, ext)
  {
    hide Put, Stored83;
    var got, want := Put(Put(BLANK, 0, base), 8, ext), Stored83(base, ext);
    forall k | 0 <= k < 11 ensures got[k] == want[k] {
      PutAt(Put(BLANK, 0, base), 8, ext, k);
      PutAt(BLANK, 0, base, k);
      StoredAt(base, ext, k);
    }
  }

  lemma PutAt(stored: Name, at: nat, bytes: seq<Byte>, k: nat)
    requires at + |bytes| <= 11 && k < 11
    ensures Put(stored, at, bytes)[k] == if at <= k < at + |bytes| then Upper(bytes[k - at]) else stored[k]
  {
  }

  lemma StoredAt(base: seq<Byte>, ext: seq<Byte>, k: nat)
    requires |base| <= 8 && |ext| <= 3 && k < 11
    ensures Stored83(base, ext)[k] == if k < |base| then Upper(base[k])
                                      else if 8 <= k < 8 + |ext| then Upper(ext[k - 8]) else SPACE
  {
  }

  /** SetFileName: up to eight bytes before the last dot, up to three behind it. */
  method SetFileName(name: seq<Byte>) returns (entryName: Name)
    ensures entryName == NameFor(name)
  {
    hide Put, Stored83;
    var dot := LastOf(DOT, name);
    entryName := seq(11, _ => SPACE);
    assert entryName == BLANK;
    var stop: nat := if dot.Some? then Min(8, dot.value) else Min(8, |name|);
    var i: nat := 0;
    PutNothing(BLANK, 0);
    assert name[..0] == [];
    while i < stop
      invariant i <= stop && entryName == Put(BLANK, 0, name[..i])
    {
      PutNext(BLANK, 0, name[..i], name[i]);
      assert name[..i + 1] == name[..i] + [name[i]];
      entryName := entryName[i := Upper(name[i])];
      i := i + 1;
    }
    ghost var base := entryName;
    PutNothing(base, 8);
    PutBoth(name[..stop], []);
    if dot.Some? {
      ghost var rest := name[dot.value + 1..];
      i := 0;
      assert rest[..0] == [];
      while i < 3 && dot.value + i + 1 < |name|
        invariant i <= 3 && i <= |rest| && entryName == Put(base, 8, rest[..i])
      {
        PutNext(base, 8, rest[..i], rest[i]);
        assert rest[..i + 1] == rest[..i] + [rest[i]];
        entryName := entryName[8 + i := Upper(name[dot.value + i + 1])];
        i := i + 1;
      }
      PutBoth(name[..stop], rest[..i]);
    }
  }

  function NameFor(name: seq<Byte>): Name {
    match LastOf(DOT, name)
    case Some(dot) => Stored83(name[..Min(8, dot)], Extension(name, dot))
    case None => Stored83(name[..Min(8, |name|)], [])
  }

  /** Where each byte of an entry's name comes from, whatever the name: no small letter is ever stored. */
  lemma NameForAt(name: seq<Byte>, k: nat)
    requires k < 11
    ensures var stored, dot := NameFor(name)[k], LastOf(DOT, name);
            && !('a' as int <= stored <= 'z' as int)
            && stored == if k < 8 && k < (if dot.Some? then dot.value else |name|) then Upper(name[k])
                         else if k >= 8 && dot.Some? && dot.value + k - 7 < |name| then Upper(name[dot.value + k - 7])
                         else SPACE
  {
    hide Stored83, LastOf, Upper, Extension;
    match LastOf(DOT, name)
    case Some(dot) =>
      ExtensionAt(name, dot, k);
      PartsAt(name[..Min(8, dot)], Extension(name, dot), k);
    case None =>
      PartsAt(name[..Min(8, |name|)], [], k);
  }

  lemma PartsAt(base: seq<Byte>, ext: seq<Byte>, k: nat)
    requires |base| <= 8 && |ext| <= 3 && k < 11
    ensures !('a' as int <= Stored83(base, ext)[k] <= 'z' as int)
    ensures k < 8 ==> Stored83(base, ext)[k] == if k < |base| then Upper(base[k]) else SPACE
    ensures k >= 8 ==> Stored83(base, ext)[k] == if k - 8 < |ext| then Upper(ext[k - 8]) else SPACE
  {
    hide Stored83;
    StoredAt(base, ext, k);
  }

  function Extension(name: seq<Byte>, dot: nat): seq<Byte>
    requires dot < |name|
  {
    name[dot + 1..][..Min(3, |name| - dot - 1)]
  }

  lemma ExtensionAt(name: seq<Byte>, dot: nat, k: nat)
    requires dot < |name|
    ensures |Extension(name, dot)| == Min(3, |name| - dot - 1)
    ensures 8 <= k < 8 + |Extension(name, dot)| ==> Extension(name, dot)[k - 8] == name[dot + k - 7]
  {
  }

  /** A name without a dot fills the places one after the other, on into the extension. */
  lemma {:induction false} ExpandDotless(name: seq<Byte>, i: nat, name83: Name, k: nat)
    requires DOT !in name && i <= |name| && k < 11
    ensures Expand(name, i, i, name83)[k] == if i <= k < |name| then Upper(name[k]) else name83[k]
    decreases |name| - i
  {
    if i < |name| && i < 11 {
      ExpandDotless(name, i + 1, name83[i := Upper(name[i])], k);
    }
  }

  /** A search compares with no small letter either. */
  lemma {:induction false} ExpandCapital(name: seq<Byte>, i: nat, i83: nat, name83: Name, k: nat)
    requires i <= |name| && k < 11 && forall j :: 0 <= j < 11 ==> !('a' as int <= name83[j] <= 'z' as int)
    ensures !('a' as int <= Expand(name, i, i83, name83)[k] <= 'z' as int)
    decreases |name| - i
  {
    if i < |name| && i83 < 11 {
      if name[i] == DOT {
        ExpandCapital(name, i + 1, 8, name83, k);
      } else {
        ExpandCapital(name, i + 1, i83 + 1, name83[i83 := Upper(name[i])], k);
      }
    }
  }

  // ----- the functions agree on valid names

  /** A valid name is stored as its two parts. */
  lemma NameForValid(base: seq<Byte>, ext: seq<Byte>)
    requires Valid(base, ext)
    ensures NameFor(Join(base, ext)) == Stored83(base, ext)
  {
    var name := Join(base, ext);
    if ext == [] {
      assert name[..Min(8, |name|)] == base;
    } else {
      var dot := LastOf(DOT, name);
      assert name[|base|] == DOT;
      assert forall i :: |base| < i < |name| ==> name[i] == ext[i - |base| - 1];
      assert dot == Some(|base|);
      assert name[..Min(8, |base|)] == base && name[|base| + 1..][..Min(3, |ext|)] == ext;
    }
  }

  /** Base characters go to their places. */
  lemma {:induction false} ExpandBase(name: seq<Byte>, base: seq<Byte>, i: nat, name83: Name)
    requires i <= |base| <= 8 && |base| <= |name| && name[..|base|] == base && DOT !in base
    requires forall k :: 0 <= k < 11 ==> name83[k] == if k < i then Upper(base[k]) else SPACE
    ensures Expand(name, i, i, name83) == Expand(name, |base|, |base|, Stored83(base, []))
    decreases |base| - i
  {
    if i == |base| {
      assert name83 == Stored83(base, []);
    } else {
      assert name[i] == base[i] && base[i] in base;
      ExpandBase(name, base, i + 1, name83[i := Upper(base[i])]);
    }
  }

  lemma {:induction false} ExpandExt(name: seq<Byte>, base: seq<Byte>, ext: seq<Byte>, i: nat, name83: Name)
    requires |base| <= 8 && i <= |ext| <= 3 && name == base + [DOT] + ext && DOT !in ext
    requires forall k :: 0 <= k < 11 ==> name83[k] == if k < |base| then Upper(base[k])
                                                     else if 8 <= k < 8 + i then Upper(ext[k - 8]) else SPACE
    ensures Expand(name, |base| + 1 + i, 8 + i, name83) == Stored83(base, ext)
    decreases |ext| - i
  {
    if i == |ext| {
      assert name83 == Stored83(base, ext);
    } else {
      assert name[|base| + 1 + i] == ext[i] && ext[i] in ext;
      ExpandExt(name, base, ext, i + 1, name83[8 + i := Upper(ext[i])]);
    }
  }

  /** A search for a valid name compares with the name as it is stored. */
  lemma ExpandValid(base: seq<Byte>, ext: seq<Byte>)
    requires Valid(base, ext)
    ensures Expand(Join(base, ext), 0, 0, BLANK) == Stored83(base, ext)
  {
    var name := Join(base, ext);
    assert name[..|base|] == base;
    ExpandBase(name, base, 0, BLANK);
    if ext != [] {
      assert name[|base|] == DOT;
      ExpandExt(name, base, ext, 0, Stored83(base, []));
    }
  }

  lemma {:induction false} TrimPad(s: seq<Byte>, size: nat)
    requires |s| <= size && (s != [] ==> s[|s| - 1] != SPACE)
    ensures Trimmed(Uppercase(Pad(s, size))) == |s|
    ensures Uppercase(Pad(s, size))[..|s|] == Uppercase(s)
  {
    var padded := Uppercase(Pad(s, size));
    var n := Trimmed(padded);
    assert |s| > 0 ==> padded[|s| - 1] == Upper(s[|s| - 1]);
    assert forall i :: |s| <= i < size ==> padded[i] == SPACE;
  }

  /** Round trip: formatting the stored name gives the name in capitals. */
  lemma FormatStored(base: seq<Byte>, ext: seq<Byte>)
    requires Valid(base, ext)
    ensures Format(NameFor(Join(base, ext))) == Uppercase(Join(base, ext))
  {
    hide NameFor, Trimmed, Valid;
    NameForValid(base, ext);
    FormatParts(base, ext);
    JoinUpper(base, ext);
  }

  lemma FormatParts(base: seq<Byte>, ext: seq<Byte>)
    requires Valid(base, ext)
    ensures Format(Stored83(base, ext)) == Join(Uppercase(base), Uppercase(ext))
  {
    hide Trimmed, Uppercase, Join;
    StoredParts(base, ext);
    TrimPad(base, 8);
    TrimPad(ext, 3);
  }

  lemma StoredParts(base: seq<Byte>, ext: seq<Byte>)
    requires |base| <= 8 && |ext| <= 3
    ensures Stored83(base, ext)[..8] == Uppercase(Pad(base, 8)) && Stored83(base, ext)[8..] == Uppercase(Pad(ext, 3))
  {
  }

  lemma JoinUpper(base: seq<Byte>, ext: seq<Byte>)
    ensures Join(Uppercase(base), Uppercase(ext)) == Uppercase(Join(base, ext))
  {
  }

  /** An entry created for one valid name is found by another exactly when they differ in case only. */
  lemma FoundIff(base: seq<Byte>, ext: seq<Byte>, base': seq<Byte>, ext': seq<Byte>)
    requires Valid(base, ext) && Valid(base', ext')
    ensures NameFor(Join(base, ext)) == Expand(Join(base', ext'), 0, 0, BLANK)
       <==> Uppercase(Join(base, ext)) == Uppercase(Join(base', ext'))
  {
    ExpandValid(base', ext');
    NameForValid(base', ext');
    FormatStored(base, ext);
    FormatStored(base', ext');
    if Uppercase(Join(base, ext)) == Uppercase(Join(base', ext')) {
      SameParts(base, ext, base', ext');
      NameForValid(base, ext);
    }
  }

  lemma SameParts(base: seq<Byte>, ext: seq<Byte>, base': seq<Byte>, ext': seq<Byte>)
    requires Valid(base, ext) && Valid(base', ext') && Uppercase(Join(base, ext)) == Uppercase(Join(base', ext'))
    ensures Stored83(base, ext) == Stored83(base', ext')
  {
    var a, b := Join(base, ext), Join(base', ext');
    var u, v := Uppercase(a), Uppercase(b);
    forall i | 0 <= i < |u| ensures a[i] == DOT <==> b[i] == DOT {
      assert u[i] == v[i];
    }
    assert ext != [] ==> a[|base|] == DOT;
    assert ext' != [] ==> b[|base'|] == DOT;
    assert |base| == |base'|;
    forall i | 0 <= i < |base| ensures Upper(base[i]) == Upper(base'[i]) {
      assert u[i] == v[i];
    }
    assert |ext| == |ext'|;
    forall i | 0 <= i < |ext| ensures Upper(ext[i]) == Upper(ext'[i]) {
      assert u[|base| + 1 + i] == v[|base| + 1 + i];
    }
    assert Stored83(base, ext) == Stored83(base', ext');
  }

  /** A stored valid name is neither the end mark nor the mark of a removed entry. */
  lemma StoredBegins(base: seq<Byte>, ext: seq<Byte>)
    requires Valid(base, ext)
    ensures NameFor(Join(base, ext))[0] != 0 && NameFor(Join(base, ext))[0] < 0x80
  {
    NameForValid(base, ext);
    assert Pad(base, 8)[0] == base[0];
  }
}
