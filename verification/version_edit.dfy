/** The record of one change to the set of files, as written to the manifest (db/version_edit.cc). */
module VersionEdits {
  import opened Coding
  import opened Wrappers
  import Sequences

  const NUM_LEVELS := 7

  /** Keys are encoded internal keys. */
  datatype FileMetaData = FileMetaData(number: nat, fileSize: nat, smallest: Bytes, largest: Bytes)

  /** One item of a record. */
  datatype Field =
    | Comparator(name: Bytes)
    | LogNumber(n: nat)
    | PrevLogNumber(n: nat)
    | NextFileNumber(n: nat)
    | LastSequence(n: nat)
    | CompactPointer(level: nat, key: Bytes)
    | DeletedFile(level: nat, number: nat)
    | NewFile(level: nat, file: FileMetaData)

  /** `deletedFiles` is an ordered set: ascending, without repetition. */
  datatype Edit = Edit(comparator: Option<Bytes>, logNumber: Option<nat>, prevLogNumber: Option<nat>,
                       nextFileNumber: Option<nat>,
                       lastSequence: Option<nat>, compactPointers: seq<(nat, Bytes)>, deletedFiles: seq<(nat, nat)>,
                       newFiles: seq<(nat, FileMetaData)>)

  function EmptyEdit(): Edit {
    Edit(None, None, None, None, None, [], [], [])
  }

  function TagOf(f: Field): nat {
    match f
    case Comparator(_) => 1
    case LogNumber(_) => 2
    case NextFileNumber(_) => 3
    case LastSequence(_) => 4
    case CompactPointer(_, _) => 5
    case DeletedFile(_, _) => 6
    case NewFile(_, _) => 7
    case PrevLogNumber(_) => 9
  }

  function EncodeContents(f: Field): Bytes {
    match f
    case Comparator(name) => Prefixed(name)
    case LogNumber(n) => Varint(n)
    case PrevLogNumber(n) => Varint(n)
    case NextFileNumber(n) => Varint(n)
    case LastSequence(n) => Varint(n)
    case CompactPointer(level, key) => Varint(level) + Prefixed(key)
    case DeletedFile(level, number) => Varint(level) + Varint(number)
    case NewFile(level, file) =>
      Varint(level) +
        (Varint(file.number) + (Varint(file.fileSize) + (Prefixed(file.smallest) + Prefixed(file.largest))))
  }

  function EncodeField(f: Field): Bytes {
    Varint(TagOf(f)) + EncodeContents(f)
  }

  function GetLevel(s: Bytes): Option<Parsed<nat>> {
    match GetVarint(s, 32)
    case None => None
    case Some(p) => if p.value < NUM_LEVELS then Some(p) else None
  }

  /** The field with one number that has this tag. */
  function NumberField(tag: nat, n: nat): Field {
    if tag == 2 then LogNumber(n) else if tag == 9 then PrevLogNumber(n) else if tag == 3 then NextFileNumber(n)
      else LastSequence(n)
  }

  function ParseNumber(s: Bytes, tag: nat): Option<Parsed<Field>> {
    match GetVarint(s, 64)
    case None => None
    case Some(p) => Some(Parsed(NumberField(tag, p.value), p.rest))
  }

  function ParseDeletedFile(s: Bytes, level: nat): Option<Parsed<Field>> {
    match GetVarint(s, 64)
    case None => None
    case Some(p) => Some(Parsed(DeletedFile(level, p.value), p.rest))
  }

  function ParseNewFile(s: Bytes, level: nat): Option<Parsed<Field>> {
    match GetVarint(s, 64)
    case None => None
    case Some(number) =>
      match GetVarint(number.rest, 64)
      case None => None
      case Some(size) =>
        match GetPrefixed(size.rest)
        case None => None
        case Some(smallest) =>
          match GetPrefixed(smallest.rest)
          case None => None
          case Some(largest) =>
            Some(Parsed(NewFile(level, FileMetaData(number.value, size.value, smallest.value, largest.value)),
                        largest.rest))
  }

  /** What follows a tag; None for an unknown tag or contents that are cut short. */
  function ParseContents(tag: nat, s: Bytes): Option<Parsed<Field>> {
    if tag == 1 then
      match GetPrefixed(s)
      case None => None
      case Some(p) => Some(Parsed(Comparator(p.value), p.rest))
    else if tag == 2 || tag == 9 || tag == 3 || tag == 4 then ParseNumber(s, tag)
    else if tag == 5 || tag == 6 || tag == 7 then
      match GetLevel(s)
      case None => None
      case Some(level) =>
        if tag == 5 then
          match GetPrefixed(level.rest)
          case None => None
          case Some(key) => Some(Parsed(CompactPointer(level.value, key.value), key.rest))
        else if tag == 6 then ParseDeletedFile(level.rest, level.value)
        else ParseNewFile(level.rest, level.value)
    else None
  }

  lemma ParseShrinks(tag: nat, s: Bytes)
    ensures ParseContents(tag, s).Some? ==> |ParseContents(tag, s).value.rest| < |s|
  {
  }

  // ---------------------------------------------------------------- one field

  predicate KeyOk(key: Bytes) {
    |key| < Pow2(32)
  }

  /** What fits the integers of the source. */
  predicate FieldOk(f: Field) {
    match f
    case Comparator(name) => |name| < Pow2(32)
    case LogNumber(n) => n < Pow2(64)
    case PrevLogNumber(n) => n < Pow2(64)
    case NextFileNumber(n) => n < Pow2(64)
    case LastSequence(n) => n < Pow2(64)
    case CompactPointer(level, key) => level < NUM_LEVELS && KeyOk(key)
    case DeletedFile(level, number) => level < NUM_LEVELS && number < Pow2(64)
    case NewFile(level, file) =>
      level < NUM_LEVELS && file.number < Pow2(64) && file.fileSize < Pow2(64) && KeyOk(file.smallest) &&
        KeyOk(file.largest)
  }

  lemma SmallFits(n: nat)
    requires n < 16
    ensures n < Pow2(32)
  {
    Pow2Monotone(4, 32);
    assert Pow2(4) == 16;
  }

  lemma LevelRoundTrip(level: nat, rest: Bytes)
    requires level < NUM_LEVELS
    ensures GetLevel(Varint(level) + rest) == Some(Parsed(level, rest))
  {
    SmallFits(level);
    VarintRoundTrip(level, rest, 32);
  }

  lemma NewFileRoundTrip(level: nat, file: FileMetaData, rest: Bytes)
    requires FieldOk(NewFile(level, file))
    ensures ParseNewFile(Varint(file.number) +
                         (Varint(file.fileSize) + (Prefixed(file.smallest) + (Prefixed(file.largest) + rest))),
                           level) ==
            Some(Parsed(NewFile(level, file), rest))
  {
    hide GetVarint, Varint, GetPrefixed, Prefixed;
    var d := Prefixed(file.largest) + rest;
    var c := Prefixed(file.smallest) + d;
    var b := Varint(file.fileSize) + c;
    VarintRoundTrip(file.number, b, 64);
    VarintRoundTrip(file.fileSize, c, 64);
    PrefixedRoundTrip(file.smallest, d);
    PrefixedRoundTrip(file.largest, rest);
  }

  lemma Regroups(a: Bytes, b: Bytes, c: Bytes, d: Bytes, e: Bytes, rest: Bytes)
    ensures (a + (b + (c + (d + e)))) + rest == a + (b + (c + (d + (e + rest))))
    ensures (a + b) + rest == a + (b + rest)
  {
  }

  lemma PointerRoundTrip(level: nat, key: Bytes, rest: Bytes)
    requires FieldOk(CompactPointer(level, key))
    ensures ParseContents(5, (Varint(level) + Prefixed(key)) + rest) == Some(Parsed(CompactPointer(level, key), rest))
  {
    hide GetPrefixed, GetLevel, Prefixed, Varint, VarintAt;
    Regroups(Varint(level), Prefixed(key), [], [], [], rest);
    LevelRoundTrip(level, Prefixed(key) + rest);
    PrefixedRoundTrip(key, rest);
  }

  lemma DeletedRoundTrip(level: nat, number: nat, rest: Bytes)
    requires FieldOk(DeletedFile(level, number))
    ensures ParseContents(6, (Varint(level) + Varint(number)) + rest) == Some(Parsed(DeletedFile(level, number), rest))
  {
    hide GetPrefixed, GetLevel, Prefixed, Varint, VarintAt;
    Regroups(Varint(level), Varint(number), [], [], [], rest);
    LevelRoundTrip(level, Varint(number) + rest);
    VarintRoundTrip(number, rest, 64);
  }

  lemma FileRoundTrip(level: nat, file: FileMetaData, rest: Bytes)
    requires FieldOk(NewFile(level, file))
    ensures ParseContents(7, EncodeContents(NewFile(level, file)) + rest) == Some(Parsed(NewFile(level, file), rest))
  {
    hide GetPrefixed, GetLevel, Prefixed, Varint, VarintAt, ParseNewFile;
    Regroups(Varint(level), Varint(file.number), Varint(file.fileSize), Prefixed(file.smallest),
             Prefixed(file.largest), rest);
    LevelRoundTrip(level,
                   Varint(file.number) +
                     (Varint(file.fileSize) + (Prefixed(file.smallest) + (Prefixed(file.largest) + rest))));
    NewFileRoundTrip(level, file, rest);
  }

  lemma ContentsRoundTrip(f: Field, rest: Bytes)
    requires FieldOk(f)
    ensures ParseContents(TagOf(f), EncodeContents(f) + rest) == Some(Parsed(f, rest))
  {
    hide GetPrefixed, GetLevel, Prefixed, Varint, VarintAt, ParseNewFile;
    match f
    case Comparator(name) => PrefixedRoundTrip(name, rest);
    case LogNumber(n) => VarintRoundTrip(n, rest, 64);
    case PrevLogNumber(n) => VarintRoundTrip(n, rest, 64);
    case NextFileNumber(n) => VarintRoundTrip(n, rest, 64);
    case LastSequence(n) => VarintRoundTrip(n, rest, 64);
    case CompactPointer(level, key) => PointerRoundTrip(level, key, rest);
    case DeletedFile(level, number) => DeletedRoundTrip(level, number, rest);
    case NewFile(level, file) => FileRoundTrip(level, file, rest);
  }

  lemma FieldRoundTrip(f: Field, rest: Bytes)
    requires FieldOk(f)
    ensures GetVarint(EncodeField(f) + rest, 32) == Some(Parsed(TagOf(f), EncodeContents(f) + rest))
    ensures ParseContents(TagOf(f), EncodeContents(f) + rest) == Some(Parsed(f, rest))
  {
    SmallFits(TagOf(f));
    VarintRoundTrip(TagOf(f), EncodeContents(f) + rest, 32);
    Sequences.Associates(Varint(TagOf(f)), EncodeContents(f), rest);
    ContentsRoundTrip(f, rest);
  }

  // ---------------------------------------------------------------- a whole edit

  /** In an ordered set of pairs: by level, then by number. */
  predicate PairLess(a: (nat, nat), b: (nat, nat)) {
    a.0 < b.0 || (a.0 == b.0 && a.1 < b.1)
  }

  /** Insertion into an ordered set. */
  function InsertPair(s: seq<(nat, nat)>, p: (nat, nat)): (r: seq<(nat, nat)>)
    ensures forall q :: q in r <==> q in s || q == p
  {
    if s == [] then [p]
    else if PairLess(s[|s| - 1], p) then s + [p]
    else if s[|s| - 1] == p then s
    else InsertPair(s[..|s| - 1], p) + [s[|s| - 1]]
  }

  ghost predicate PairsAscend(s: seq<(nat, nat)>) {
    forall i, j :: 0 <= i < j < |s| ==> PairLess(s[i], s[j])
  }

  /** What a field does to the edit that has been read so far. */
  function WithField(e: Edit, f: Field): Edit {
    match f
    case Comparator(name) => e.(comparator := Some(name))
    case LogNumber(n) => e.(logNumber := Some(n))
    case PrevLogNumber(n) => e.(prevLogNumber := Some(n))
    case NextFileNumber(n) => e.(nextFileNumber := Some(n))
    case LastSequence(n) => e.(lastSequence := Some(n))
    case CompactPointer(level, key) => e.(compactPointers := e.compactPointers + [(level, key)])
    case DeletedFile(level, number) => e.(deletedFiles := InsertPair(e.deletedFiles, (level, number)))
    case NewFile(level, file) => e.(newFiles := e.newFiles + [(level, file)])
  }

  function WithFields(e: Edit, fields: seq<Field>): Edit
    decreases fields
  {
    if fields == [] then e else WithFields(WithField(e, fields[0]), fields[1..])
  }

  function EncodeFields(fields: seq<Field>): Bytes {
    if fields == [] then [] else EncodeField(fields[0]) + EncodeFields(fields[1..])
  }

  /** The loop of DecodeFrom; None for a corrupt record. */
  function DecodeFields(s: Bytes, e: Edit): Option<Edit>
    decreases |s|
  {
    match GetVarint(s, 32)
    case None => if s == [] then Some(e) else None
    case Some(tag) =>
      ParseShrinks(tag.value, tag.rest);
      match ParseContents(tag.value, tag.rest)
      case None => None
      case Some(f) => DecodeFields(f.rest, WithField(e, f.value))
  }

  lemma {:induction false} FieldsRoundTrip(fields: seq<Field>, e: Edit)
    requires forall i :: 0 <= i < |fields| ==> FieldOk(fields[i])
    ensures DecodeFields(EncodeFields(fields), e) == Some(WithFields(e, fields))
  {
    if fields != [] {
      FieldRoundTrip(fields[0], EncodeFields(fields[1..]));
      FieldsRoundTrip(fields[1..], WithField(e, fields[0]));
    }
  }

  function OptionalName(name: Option<Bytes>): seq<Field> {
    match name
    case None => []
    case Some(s) => [Comparator(s)]
  }

  function OptionalField(n: Option<nat>, tag: nat): seq<Field> {
    match n
    case None => []
    case Some(v) => [NumberField(tag, v)]
  }

  function NumberFields(e: Edit): seq<Field> {
    OptionalName(e.comparator) + OptionalField(e.logNumber, 2) + OptionalField(e.prevLogNumber, 9) +
    OptionalField(e.nextFileNumber, 3) + OptionalField(e.lastSequence, 4)
  }

  function PointerFields(s: seq<(nat, Bytes)>): (r: seq<Field>)
    ensures |r| == |s|
  {
    seq(|s|, i requires 0 <= i < |s| => CompactPointer(s[i].0, s[i].1))
  }

  function DeletedFields(s: seq<(nat, nat)>): (r: seq<Field>)
    ensures |r| == |s|
  {
    seq(|s|, i requires 0 <= i < |s| => DeletedFile(s[i].0, s[i].1))
  }

  function NewFields(s: seq<(nat, FileMetaData)>): (r: seq<Field>)
    ensures |r| == |s|
  {
    seq(|s|, i requires 0 <= i < |s| => NewFile(s[i].0, s[i].1))
  }

  /** The items of an edit, in the order in which they are written. */
  function FieldsOf(e: Edit): seq<Field> {
    NumberFields(e) + PointerFields(e.compactPointers) + DeletedFields(e.deletedFiles) + NewFields(e.newFiles)
  }

  lemma {:induction false} WithFieldsAppends(e: Edit, a: seq<Field>, b: seq<Field>)
    ensures WithFields(e, a + b) == WithFields(WithFields(e, a), b)
    decreases a
  {
    if a == [] {
      assert a + b == b;
    } else {
      assert (a + b)[1..] == a[1..] + b;
      WithFieldsAppends(WithField(e, a[0]), a[1..], b);
    }
  }

  lemma {:induction false} PointersReadBack(e: Edit, s: seq<(nat, Bytes)>)
    ensures WithFields(e, PointerFields(s)) == e.(compactPointers := e.compactPointers + s)
    decreases s
  {
    if s == [] {
      assert e.compactPointers + s == e.compactPointers;
    } else {
      assert PointerFields(s)[1..] == PointerFields(s[1..]);
      PointersReadBack(e.(compactPointers := e.compactPointers + [s[0]]), s[1..]);
      assert (e.compactPointers + [s[0]]) + s[1..] == e.compactPointers + s;
    }
  }

  lemma {:induction false} NewFilesReadBack(e: Edit, s: seq<(nat, FileMetaData)>)
    ensures WithFields(e, NewFields(s)) == e.(newFiles := e.newFiles + s)
    decreases s
  {
    if s == [] {
      assert e.newFiles + s == e.newFiles;
    } else {
      assert NewFields(s)[1..] == NewFields(s[1..]);
      NewFilesReadBack(e.(newFiles := e.newFiles + [s[0]]), s[1..]);
      assert (e.newFiles + [s[0]]) + s[1..] == e.newFiles + s;
    }
  }

  lemma {:induction false} DeletedFilesReadBack(e: Edit, s: seq<(nat, nat)>)
    requires PairsAscend(e.deletedFiles + s)
    ensures WithFields(e, DeletedFields(s)) == e.(deletedFiles := e.deletedFiles + s)
    decreases s
  {
    if s == [] {
      assert e.deletedFiles + s == e.deletedFiles;
    } else {
      var all := e.deletedFiles + s;
      assert DeletedFields(s)[1..] == DeletedFields(s[1..]);
      assert e.deletedFiles != [] ==> PairLess(all[|e.deletedFiles| - 1], all[|e.deletedFiles|]);
      assert InsertPair(e.deletedFiles, s[0]) == e.deletedFiles + [s[0]];
      assert (e.deletedFiles + [s[0]]) + s[1..] == all;
      DeletedFilesReadBack(e.(deletedFiles := e.deletedFiles + [s[0]]), s[1..]);
    }
  }

  lemma OptionReadsBack(e: Edit, n: Option<nat>, tag: nat)
    ensures WithFields(e, OptionalField(n, tag)) ==
            match n case None => e case Some(v) => WithField(e, NumberField(tag, v))
  {
    if n.Some? {
      assert WithFields(WithField(e, NumberField(tag, n.value)), OptionalField(n, tag)[1..]) ==
             WithField(e, NumberField(tag, n.value));
    }
  }

  lemma NameReadsBack(e: Edit, name: Option<Bytes>)
    ensures WithFields(e, OptionalName(name)) == if name.None? then e else e.(comparator := name)
  {
    if name.Some? {
      assert WithFields(WithField(e, Comparator(name.value)), OptionalName(name)[1..]) ==
             WithField(e, Comparator(name.value));
    }
  }

  lemma FiveAppend(e: Edit, a: seq<Field>, b: seq<Field>, c: seq<Field>, d: seq<Field>, f: seq<Field>)
    ensures WithFields(e, a + b + c + d + f) ==
            WithFields(WithFields(WithFields(WithFields(WithFields(e, a), b), c), d), f)
  {
    hide WithFields;
    WithFieldsAppends(e, a + b + c + d, f);
    WithFieldsAppends(e, a + b + c, d);
    WithFieldsAppends(e, a + b, c);
    WithFieldsAppends(e, a, b);
  }

  lemma NumbersReadBack(pointers: seq<(nat, Bytes)>, e: Edit)
    ensures WithFields(EmptyEdit().(compactPointers := pointers), NumberFields(e)) ==
            e.(compactPointers := pointers, deletedFiles := [], newFiles := [])
  {
    hide WithFields, OptionalField, OptionalName;
    var e0 := EmptyEdit().(compactPointers := pointers);
    FiveAppend(e0, OptionalName(e.comparator), OptionalField(e.logNumber, 2), OptionalField(e.prevLogNumber, 9),
               OptionalField(e.nextFileNumber, 3), OptionalField(e.lastSequence, 4));
    NameReadsBack(e0, e.comparator);
    var e1 := e0.(comparator := e.comparator);
    OptionReadsBack(e1, e.logNumber, 2);
    var e2 := e1.(logNumber := e.logNumber);
    OptionReadsBack(e2, e.prevLogNumber, 9);
    var e3 := e2.(prevLogNumber := e.prevLogNumber);
    OptionReadsBack(e3, e.nextFileNumber, 3);
    OptionReadsBack(e3.(nextFileNumber := e.nextFileNumber), e.lastSequence, 4);
  }

  /** What fits the source's integers, with the deleted files in order. */
  ghost predicate EditOk(e: Edit) {
    PairsAscend(e.deletedFiles) && forall i :: 0 <= i < |FieldsOf(e)| ==> FieldOk(FieldsOf(e)[i])
  }

  /** Decoding gives the edit that was encoded; the pointers that the decoding object still had come before
      those of the edit, so for a fresh object the result is the edit itself. */
  lemma EditRoundTrip(e: Edit, pointers: seq<(nat, Bytes)>)
    requires EditOk(e)
    ensures DecodeFields(EncodeFields(FieldsOf(e)), EmptyEdit().(compactPointers := pointers)) ==
            Some(e.(compactPointers := pointers + e.compactPointers))
  {
    hide WithFields, NumberFields, DecodeFields, EncodeFields, InsertPair;
    var e0 := EmptyEdit().(compactPointers := pointers);
    FieldsRoundTrip(FieldsOf(e), e0);
    var a, b, c, d :=
      NumberFields(e), PointerFields(e.compactPointers), DeletedFields(e.deletedFiles), NewFields(e.newFiles);
    WithFieldsAppends(e0, a + b + c, d);
    WithFieldsAppends(e0, a + b, c);
    WithFieldsAppends(e0, a, b);
    NumbersReadBack(pointers, e);
    var e1 := WithFields(e0, a);
    PointersReadBack(e1, e.compactPointers);
    var e2 := e1.(compactPointers := pointers + e.compactPointers);
    assert e2.deletedFiles + e.deletedFiles == e.deletedFiles;
    DeletedFilesReadBack(e2, e.deletedFiles);
    var e3 := e2.(deletedFiles := e.deletedFiles);
    assert e3.newFiles + e.newFiles == e.newFiles;
    NewFilesReadBack(e3, e.newFiles);
  }

  // ---------------------------------------------------------------- the object

  lemma {:induction false} EncodeAppends(a: seq<Field>, b: seq<Field>)
    ensures EncodeFields(a + b) == EncodeFields(a) + EncodeFields(b)
  {
    if a == [] {
      assert a + b == b;
    } else {
      assert (a + b)[1..] == a[1..] + b;
      EncodeAppends(a[1..], b);
      Sequences.Associates(EncodeField(a[0]), EncodeFields(a[1..]), EncodeFields(b));
    }
  }

  lemma EncodeSnoc(dst: Bytes, fields: seq<Field>, i: nat)
    requires i < |fields|
    ensures dst + EncodeFields(fields[..i + 1]) == (dst + EncodeFields(fields[..i])) + EncodeField(fields[i])
  {
    assert fields[..i + 1] == fields[..i] + [fields[i]];
    EncodeAppends(fields[..i], [fields[i]]);
    assert EncodeFields([fields[i]]) == EncodeField(fields[i]);
    Sequences.Associates(dst, EncodeFields(fields[..i]), EncodeField(fields[i]));
  }

  lemma EncodeFour(dst: Bytes, a: seq<Field>, b: seq<Field>, c: seq<Field>, d: seq<Field>)
    ensures dst + EncodeFields(a + b + c + d) ==
            dst + EncodeFields(a) + EncodeFields(b) + EncodeFields(c) + EncodeFields(d)
  {
    hide EncodeFields;
    EncodeAppends(a + b + c, d);
    EncodeAppends(a + b, c);
    EncodeAppends(a, b);
    FourAssociate(dst, EncodeFields(a), EncodeFields(b), EncodeFields(c), EncodeFields(d));
  }

  lemma FourAssociate(dst: Bytes, a: Bytes, b: Bytes, c: Bytes, d: Bytes)
    ensures dst + (a + b + c + d) == dst + a + b + c + d
  {
  }

  class VersionEdit {
    var comparator: Option<Bytes>
    var logNumber: Option<nat>
    var prevLogNumber: Option<nat>
    var nextFileNumber: Option<nat>
    var lastSequence: Option<nat>
    var compactPointers: seq<(nat, Bytes)>
    var deletedFiles: seq<(nat, nat)>
    var newFiles: seq<(nat, FileMetaData)>

    function Value(): Edit
      reads this
    {
      Edit(comparator, logNumber, prevLogNumber, nextFileNumber, lastSequence, compactPointers, deletedFiles, newFiles)
    }

    constructor ()
      ensures Value() == EmptyEdit()
    {
      comparator, logNumber, prevLogNumber, nextFileNumber, lastSequence := None, None, None, None, None;
      compactPointers, deletedFiles, newFiles := [], [], [];
    }

    /** The compaction pointers stay. */
    method Clear()
      modifies this
      ensures Value() == EmptyEdit().(compactPointers := old(compactPointers))
    {
      comparator, logNumber, prevLogNumber, nextFileNumber, lastSequence := None, None, None, None, None;
      deletedFiles, newFiles := [], [];
    }

    method AddFile(level: nat, number: nat, fileSize: nat, smallest: Bytes, largest: Bytes)
      modifies this
      ensures Value() == WithField(old(Value()), NewFile(level, FileMetaData(number, fileSize, smallest, largest)))
    {
      newFiles := newFiles + [(level, FileMetaData(number, fileSize, smallest, largest))];
    }

    method DeleteFile(level: nat, number: nat)
      modifies this
      ensures Value() == WithField(old(Value()), DeletedFile(level, number))
    {
      deletedFiles := InsertPair(deletedFiles, (level, number));
    }

    method SetCompactPointer(level: nat, key: Bytes)
      modifies this
      ensures Value() == WithField(old(Value()), CompactPointer(level, key))
    {
      compactPointers := compactPointers + [(level, key)];
    }

    method EncodeList(dst: Bytes, fields: seq<Field>) returns (r: Bytes)
      ensures r == dst + EncodeFields(fields)
    {
      r := dst;
      for i := 0 to |fields|
        invariant r == dst + EncodeFields(fields[..i])
      {
        EncodeSnoc(dst, fields, i);
        r := r + EncodeField(fields[i]);
      }
      assert fields[..|fields|] == fields;
    }

    method EncodeTo(dst: Bytes) returns (r: Bytes)
      ensures r == dst + EncodeFields(FieldsOf(Value()))
    {
      EncodeFour(dst, NumberFields(Value()), PointerFields(compactPointers), DeletedFields(deletedFiles),
                 NewFields(newFiles));
      r := EncodeList(dst, NumberFields(Value()));
      r := EncodeList(r, PointerFields(compactPointers));
      r := EncodeList(r, DeletedFields(deletedFiles));
      r := EncodeList(r, NewFields(newFiles));
    }

    method Store(f: Field)
      modifies this
      ensures Value() == WithField(old(Value()), f)
    {
      match f
      case Comparator(name) => comparator := Some(name);
      case LogNumber(n) => logNumber := Some(n);
      case PrevLogNumber(n) => prevLogNumber := Some(n);
      case NextFileNumber(n) => nextFileNumber := Some(n);
      case LastSequence(n) => lastSequence := Some(n);
      case CompactPointer(level, key) => SetCompactPointer(level, key);
      case DeletedFile(level, number) => DeleteFile(level, number);
      case NewFile(level, file) => AddFile(level, file.number, file.fileSize, file.smallest, file.largest);
    }

    /** What was read before a corruption stays in the object. */
    method DecodeFrom(src: Bytes) returns (ok: bool)
      modifies this
      ensures ok == DecodeFields(src, EmptyEdit().(compactPointers := old(compactPointers))).Some?
      ensures ok ==> DecodeFields(src, EmptyEdit().(compactPointers := old(compactPointers))) == Some(Value())
    {
      Clear();
      ghost var e0 := Value();
      var input := src;
      while true
        invariant DecodeFields(src, e0) == DecodeFields(input, Value())
        decreases |input|
      {
        var tag := GetVarint(input, 32);
        if tag.None? {
          return input == [];
        }
        ParseShrinks(tag.value.value, tag.value.rest);
        var f := ParseContents(tag.value.value, tag.value.rest);
        if f.None? {
          return false;
        }
        Store(f.value.value);
        input := f.value.rest;
      }
    }
  }
}
