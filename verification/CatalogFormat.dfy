// The entries of catalog.dat (internal/ENG/LS/catalog.go): encoding, decoding and the
// proof that an entry comes back, up to column types that do not fit into a byte.
//
// Strings are their bytes.  Column statistics are not modelled: no entry has any.
module CatalogFormat {
  import opened Bytes
  import opened Codec

  datatype Column = Column(name: Key, typ: int64, nullable: bool)
  datatype Index = Index(indexId: uint64, name: Key, columns: seq<Key>, unique: bool, createSql: Key)
  datatype Entry = Entry(tableId: uint64, name: Key, primaryKey: Key, columns: seq<Column>,
                         uniques: seq<seq<int64>>, indexes: seq<Index>, createSql: Key)

  // LX.T_TEXT
  const T_TEXT: int64 := 61

  // ---------------------------------------------------------------- lists

  function WriteList<T>(write: (T, Key) -> Key, xs: seq<T>, k: Key): Key {
    if xs == [] then k else write(xs[0], WriteList(write, xs[1..], k))
  }

  function ReadList<T>(read: Key -> Option<(T, Key)>, n: nat, data: Key): Option<(seq<T>, Key)> {
    if n == 0 then Some(([], data))
    else
      match read(data)
      case None => None
      case Some(x) =>
        match ReadList(read, n - 1, x.1)
        case None => None
        case Some(rest) => Some(([x.0] + rest.0, rest.1))
  }

  // A count and the items.
  function WriteItems<T>(write: (T, Key) -> Key, xs: seq<T>, k: Key): Key {
    Uvarint(|xs|, WriteList(write, xs, k))
  }

  function ReadItems<T>(read: Key -> Option<(T, Key)>, data: Key): Option<(seq<T>, Key)> {
    match ReadUvarint(data)
    case None => None
    case Some(count) => ReadList(read, count.0, count.1)
  }

  // Reading undoes writing, up to norm.
  ghost predicate Undoes<T(!new)>(read: Key -> Option<(T, Key)>, write: (T, Key) -> Key, norm: T -> T, x: T) {
    forall k :: read(write(x, k)) == Some((norm(x), k))
  }

  function Map<T>(norm: T -> T, xs: seq<T>): (ys: seq<T>)
    ensures |ys| == |xs| && forall i :: 0 <= i < |xs| ==> ys[i] == norm(xs[i])
  {
    seq(|xs|, i requires 0 <= i < |xs| => norm(xs[i]))
  }

  lemma {:induction false} ReadsList<T(!new)>(read: Key -> Option<(T, Key)>, write: (T, Key) -> Key, norm: T -> T,
                                              xs: seq<T>, k: Key)
    requires forall i :: 0 <= i < |xs| ==> Undoes(read, write, norm, xs[i])
    ensures ReadList(read, |xs|, WriteList(write, xs, k)) == Some((Map(norm, xs), k))
  {
    if xs != [] {
      ReadsList(read, write, norm, xs[1..], k);
      assert Map(norm, xs) == [norm(xs[0])] + Map(norm, xs[1..]);
    } else {
      assert Map(norm, xs) == [];
    }
  }

  lemma ReadsItems<T(!new)>(read: Key -> Option<(T, Key)>, write: (T, Key) -> Key, norm: T -> T, xs: seq<T>, k: Key)
    requires |xs| < LIMIT && forall i :: 0 <= i < |xs| ==> Undoes(read, write, norm, xs[i])
    ensures ReadItems(read, WriteItems(write, xs, k)) == Some((Map(norm, xs), k))
  {
    ReadsUvarint(|xs|, WriteList(write, xs, k));
    ReadsList(read, write, norm, xs, k);
  }

  // ---------------------------------------------------------------- columns and constraints

  function BoolByte(b: bool): byte {
    if b then 1 else 0
  }

  function WriteColumn(c: Column, k: Key): Key {
    Blob(c.name, [if 0 < c.typ < 256 then c.typ else 0, BoolByte(c.nullable)] + k)
  }

  function ReadColumn(data: Key): Option<(Column, Key)> {
    match ReadBlob(data)
    case None => None
    case Some(name) =>
      if |name.1| < 2 then None
      else Some((Column(name.0, if name.1[0] == 0 then T_TEXT else name.1[0], name.1[1] != 0), name.1[2..]))
  }

  // A type outside of 1..255 comes back as TEXT.
  function NormColumn(c: Column): Column {
    if 0 < c.typ < 256 then c else c.(typ := T_TEXT)
  }

  function WriteColIndex(i: int64, k: Key): Key {
    Uvarint(ToUint64(i), k)
  }

  function ReadColIndex(data: Key): Option<(int64, Key)> {
    match ReadUvarint(data)
    case None => None
    case Some(i) => Some((ToInt64(i.0), i.1))
  }

  function WriteUnique(cols: seq<int64>, k: Key): Key {
    WriteItems(WriteColIndex, cols, k)
  }

  function ReadUnique(data: Key): Option<(seq<int64>, Key)> {
    ReadItems(ReadColIndex, data)
  }

  // ---------------------------------------------------------------- indexes

  // Truncated means an older file that ends here.
  datatype Part<T> = Got(value: T, rest: Key) | Truncated | Bad

  function WriteIndex(x: Index, k: Key): Key {
    Uvarint(x.indexId, Blob(x.name, WriteItems(Blob, x.columns, [BoolByte(x.unique)] + Blob(x.createSql, k))))
  }

  function PartUvarint(data: Key): Part<nat> {
    if data == [] then Truncated
    else
      match ReadUvarint(data)
      case None => Bad
      case Some(v) => Got(v.0, v.1)
  }

  function PartBlob(data: Key): Part<Key> {
    match PartUvarint(data)
    case Truncated => Truncated
    case Bad => Bad
    case Got(len, rest) =>
      match ReadBytes(len, rest)
      case None => Truncated
      case Some(s) => Got(s.0, s.1)
  }

  function PartBlobs(n: nat, data: Key): Part<seq<Key>> {
    if n == 0 then Got([], data)
    else
      match PartBlob(data)
      case Truncated => Truncated
      case Bad => Bad
      case Got(s, rest) =>
        match PartBlobs(n - 1, rest)
        case Truncated => Truncated
        case Bad => Bad
        case Got(more, end) => Got([s] + more, end)
  }

  // The flag and the statement behind the columns of an index.
  function PartIndexTail(id: nat, name: Key, columns: seq<Key>, data: Key): Part<Index> {
    if data == [] then Truncated
    else
      match PartBlob(data[1..])
      case Truncated => Truncated
      case Bad => Bad
      case Got(sql, rest) => Got(Index(id % 0x1_0000_0000_0000_0000, name, columns, data[0] != 0, sql), rest)
  }

  function PartIndexColumns(id: nat, name: Key, data: Key): Part<Index> {
    match PartUvarint(data)
    case Truncated => Truncated
    case Bad => Bad
    case Got(count, rest) =>
      match PartBlobs(count, rest)
      case Truncated => Truncated
      case Bad => Bad
      case Got(columns, tail) => PartIndexTail(id, name, columns, tail)
  }

  function PartIndex(data: Key): Part<Index> {
    match PartUvarint(data)
    case Truncated => Truncated
    case Bad => Bad
    case Got(id, rest) =>
      match PartBlob(rest)
      case Truncated => Truncated
      case Bad => Bad
      case Got(name, tail) => PartIndexColumns(id, name, tail)
  }

  function PartIndexList(n: nat, data: Key): Part<seq<Index>> {
    if n == 0 then Got([], data)
    else
      match PartIndex(data)
      case Truncated => Truncated
      case Bad => Bad
      case Got(x, rest) =>
        match PartIndexList(n - 1, rest)
        case Truncated => Truncated
        case Bad => Bad
        case Got(more, end) => Got([x] + more, end)
  }

  // decodeCatalogIndexes
  function PartIndexes(data: Key): Part<seq<Index>> {
    match ReadUvarint(data)
    case None => Truncated
    case Some(count) => PartIndexList(count.0, count.1)
  }

  // decodeCatalogStats for entries without statistics: the rest of the data.
  function SkipStats(data: Key): Option<Key> {
    match ReadUvarint(data)
    case None => Some(data)
    case Some(count) => if count.0 == 0 then Some(count.1) else None
  }

  // ---------------------------------------------------------------- entries

  function WriteTail(e: Entry, k: Key): Key {
    WriteItems(WriteUnique, e.uniques, WriteItems(WriteIndex, e.indexes, Uvarint(0, Blob(e.createSql, k))))
  }

  function WriteEntry(e: Entry, k: Key): Key {
    BigEndian(e.tableId, 8, Blob(e.name, Blob(e.primaryKey, WriteItems(WriteColumn, e.columns, WriteTail(e, k)))))
  }

  function ReadSql(e: Entry, data: Key): Option<(Entry, Key)> {
    match SkipStats(data)
    case None => None
    case Some(rest) =>
      match ReadBlob(rest)
      case None => None
      case Some(sql) => Some((e.(createSql := sql.0), sql.1))
  }

  function ReadTail(e: Entry, data: Key): Option<(Entry, Key)> {
    match ReadItems(ReadUnique, data)
    case None => None
    case Some(uniques) =>
      match PartIndexes(uniques.1)
      case Bad => None
      case Truncated => ReadSql(e.(uniques := uniques.0), uniques.1)
      case Got(indexes, rest) => ReadSql(e.(uniques := uniques.0, indexes := indexes), rest)
  }

  function ReadColumns(id: nat, name: Key, primaryKey: Key, data: Key): Option<(Entry, Key)> {
    match ReadItems(ReadColumn, data)
    case None => None
    case Some(columns) =>
      ReadTail(Entry(id % 0x1_0000_0000_0000_0000, name, primaryKey, columns.0, [], [], []), columns.1)
  }

  function ReadEntry(data: Key): Option<(Entry, Key)> {
    match ReadBig(data, 8)
    case None => None
    case Some(id) =>
      match ReadBlob(id.1)
      case None => None
      case Some(name) =>
        match ReadBlob(name.1)
        case None => None
        case Some(pk) => ReadColumns(id.0, name.0, pk.0, pk.1)
  }

  // ---------------------------------------------------------------- round trip

  ghost predicate IndexFits(x: Index) {
    && |x.name| < LIMIT && |x.columns| < LIMIT && |x.createSql| < LIMIT
    && forall i :: 0 <= i < |x.columns| ==> |x.columns[i]| < LIMIT
  }

  ghost predicate EntryFits(e: Entry) {
    && |e.name| < LIMIT && |e.primaryKey| < LIMIT && |e.createSql| < LIMIT
    && |e.columns| < LIMIT && |e.uniques| < LIMIT && |e.indexes| < LIMIT
    && (forall i :: 0 <= i < |e.columns| ==> |e.columns[i].name| < LIMIT)
    && (forall i :: 0 <= i < |e.uniques| ==> |e.uniques[i]| < LIMIT)
    && (forall i :: 0 <= i < |e.indexes| ==> IndexFits(e.indexes[i]))
  }

  function NormEntry(e: Entry): Entry {
    e.(columns := Map(NormColumn, e.columns))
  }

  predicate TypesFit(e: Entry) {
    forall i :: 0 <= i < |e.columns| ==> 0 < e.columns[i].typ < 256
  }

  function Id<T>(x: T): T {
    x
  }

  lemma MapId<T>(xs: seq<T>)
    ensures Map(Id<T>, xs) == xs
  {
  }

  lemma ReadsColumn(c: Column)
    requires |c.name| < LIMIT
    ensures Undoes(ReadColumn, WriteColumn, NormColumn, c)
  {
    forall k ensures ReadColumn(WriteColumn(c, k)) == Some((NormColumn(c), k)) {
      var rest := [if 0 < c.typ < 256 then c.typ else 0, BoolByte(c.nullable)] + k;
      ReadsBlob(c.name, rest);
      assert rest[2..] == k;
    }
  }

  lemma ReadsUnique(cols: seq<int64>)
    requires |cols| < LIMIT
    ensures Undoes(ReadUnique, WriteUnique, Id<seq<int64>>, cols)
  {
    forall i | 0 <= i < |cols| ensures Undoes(ReadColIndex, WriteColIndex, Id<int64>, cols[i]) {
      forall k ensures ReadColIndex(WriteColIndex(cols[i], k)) == Some((cols[i], k)) {
        ReadsUvarint(ToUint64(cols[i]), k);
        SignKept(cols[i]);
      }
    }
    forall k ensures ReadUnique(WriteUnique(cols, k)) == Some((cols, k)) {
      ReadsItems(ReadColIndex, WriteColIndex, Id<int64>, cols, k);
      MapId(cols);
    }
  }

  lemma UvarintNotNil(v: nat, k: Key)
    ensures Uvarint(v, k) != []
  {
  }

  lemma PartsBlob(s: Key, k: Key)
    requires |s| < LIMIT
    ensures PartBlob(Blob(s, k)) == Got(s, k)
  {
    UvarintNotNil(|s|, s + k);
    ReadsUvarint(|s|, s + k);
    ReadsBytes(s, k);
  }

  lemma {:induction false} PartsBlobs(ss: seq<Key>, k: Key)
    requires forall i :: 0 <= i < |ss| ==> |ss[i]| < LIMIT
    ensures PartBlobs(|ss|, WriteList(Blob, ss, k)) == Got(ss, k)
  {
    hide PartBlob;
    if ss != [] {
      PartsBlob(ss[0], WriteList(Blob, ss[1..], k));
      PartsBlobs(ss[1..], k);
      assert [ss[0]] + ss[1..] == ss;
    }
  }

  lemma PartsIndex(x: Index, k: Key)
    requires IndexFits(x)
    ensures PartIndex(WriteIndex(x, k)) == Got(x, k)
  {
    hide PartBlob, PartBlobs, Blob, WriteList, Uvarint, ReadUvarint;
    var k4 := Blob(x.createSql, k);
    var k3 := [BoolByte(x.unique)] + k4;
    var k2 := WriteItems(Blob, x.columns, k3);
    var k1 := Blob(x.name, k2);
    PartsBlob(x.createSql, k);
    assert k3[1..] == k4;
    UvarintNotNil(|x.columns|, WriteList(Blob, x.columns, k3));
    ReadsUvarint(|x.columns|, WriteList(Blob, x.columns, k3));
    PartsBlobs(x.columns, k3);
    PartsBlob(x.name, k2);
    UvarintNotNil(x.indexId, k1);
    ReadsUvarint(x.indexId, k1);
  }

  lemma {:induction false} PartsIndexList(xs: seq<Index>, k: Key)
    requires forall i :: 0 <= i < |xs| ==> IndexFits(xs[i])
    ensures PartIndexList(|xs|, WriteList(WriteIndex, xs, k)) == Got(xs, k)
  {
    hide PartIndex, WriteIndex, IndexFits;
    if xs != [] {
      PartsIndex(xs[0], WriteList(WriteIndex, xs[1..], k));
      PartsIndexList(xs[1..], k);
      assert [xs[0]] + xs[1..] == xs;
    }
  }

  lemma ReadsTail(e: Entry, base: Entry, k: Key)
    requires EntryFits(e) && base == e.(uniques := [], indexes := [], createSql := [])
    ensures ReadTail(base, WriteTail(e, k)) == Some((e, k))
  {
    hide ReadItems, PartIndexList, WriteList, Blob, ReadBlob, IndexFits, Uvarint, ReadUvarint;
    var k3 := Blob(e.createSql, k);
    var k2 := Uvarint(0, k3);
    var k1 := WriteItems(WriteIndex, e.indexes, k2);
    ReadsBlob(e.createSql, k);
    ReadsUvarint(0, k3);
    ReadsUvarint(|e.indexes|, WriteList(WriteIndex, e.indexes, k2));
    PartsIndexList(e.indexes, k2);
    forall i | 0 <= i < |e.uniques| ensures Undoes(ReadUnique, WriteUnique, Id<seq<int64>>, e.uniques[i]) {
      ReadsUnique(e.uniques[i]);
    }
    ReadsItems(ReadUnique, WriteUnique, Id<seq<int64>>, e.uniques, k1);
    MapId(e.uniques);
  }

  // An entry comes back as it was, with the types that do not fit read as TEXT.
  lemma EntryRoundTrip(e: Entry, k: Key)
    requires EntryFits(e)
    ensures ReadEntry(WriteEntry(e, k)) == Some((NormEntry(e), k))
    ensures KeptAs(e, NormEntry(e)) && (NormEntry(e) == e <==> TypesFit(e))
  {
    hide ReadItems, ReadTail, WriteTail, WriteItems, Blob, ReadBlob, BigEndian, ReadBig;
    var k3 := WriteTail(e, k);
    var k2 := WriteItems(WriteColumn, e.columns, k3);
    var k1 := Blob(e.primaryKey, k2);
    ReadsBig64(e.tableId, Blob(e.name, k1));
    ReadsBlob(e.name, k1);
    ReadsBlob(e.primaryKey, k2);
    forall i | 0 <= i < |e.columns| ensures Undoes(ReadColumn, WriteColumn, NormColumn, e.columns[i]) {
      ReadsColumn(e.columns[i]);
    }
    ReadsItems(ReadColumn, WriteColumn, NormColumn, e.columns, k3);
    NormTail(e, k);
    var norm := NormEntry(e);
    ReadsTail(norm, norm.(uniques := [], indexes := [], createSql := []), k);
    NormSame(e);
    NormKeeps(e);
  }

  // All of the entry, but for the types that do not fit a byte.
  ghost predicate KeptAs(e: Entry, f: Entry) {
    && f == e.(columns := f.columns) && |f.columns| == |e.columns|
    && forall i :: 0 <= i < |e.columns| ==>
         f.columns[i] == e.columns[i].(typ := if 1 <= e.columns[i].typ <= 255 then e.columns[i].typ else T_TEXT)
  }

  lemma NormKeeps(e: Entry)
    ensures KeptAs(e, NormEntry(e))
  {
  }

  // What the format keeps, it keeps again.
  lemma NormTwice(e: Entry)
    requires EntryFits(e)
    ensures EntryFits(NormEntry(e)) && NormEntry(NormEntry(e)) == NormEntry(e)
  {
    NormTail(e, []);
    assert TypesFit(NormEntry(e));
    NormSame(NormEntry(e));
  }

  lemma NormTail(e: Entry, k: Key)
    requires EntryFits(e)
    ensures WriteTail(NormEntry(e), k) == WriteTail(e, k) && EntryFits(NormEntry(e))
  {
  }

  lemma NormSame(e: Entry)
    ensures NormEntry(e) == e <==> TypesFit(e)
  {
    if TypesFit(e) {
      assert Map(NormColumn, e.columns) == e.columns;
    } else {
      var i :| 0 <= i < |e.columns| && !(0 < e.columns[i].typ < 256);
      assert NormEntry(e).columns[i] == NormColumn(e.columns[i]) != e.columns[i];
    }
  }
}
