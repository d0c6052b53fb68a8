/**
  * The writer and the reader as they run: an interning table filled while the temporaries
  * are walked, records appended one by one, and records read until the input ends.
  */
module TcgirCodec {
  import opened Options
  import opened LittleEndian
  import opened TcgirFormat

  /** Names with the index each was given. */
  class StringTable {
    var strings: seq<Name>
    var index: map<Name, nat>

    ghost predicate Valid()
      reads this
    {
      && (forall i | 0 <= i < |strings| :: strings[i] in index && index[strings[i]] == i)
      && (forall s | s in index :: index[s] < |strings| && strings[index[s]] == s)
    }

    constructor ()
      ensures Valid() && strings == []
    {
      strings, index := [], map[];
    }

    /** The index of a name, which is added if it is new. */
    method Intern(name: Name) returns (i: nat)
      requires Valid()
      modifies this
      ensures Valid() && strings == Interned(old(strings), Some(name)) && i == NameIndex(strings, Some(name))
    {
      if name in index {
        i := index[name];
        IndexIs(strings, name, i);
        return;
      }
      i := |strings|;
      strings := strings + [name];
      index := index[name := i];
      IndexIs(strings, name, i);
    }
  }

  lemma IndexIs(strings: seq<Name>, name: Name, i: nat)
    requires i < |strings| && strings[i] == name && forall k | 0 <= k < |strings| && k != i :: strings[k] != name
    ensures IndexOf(strings, name) == i
  {
  }

  /** Growing the table moves no index. */
  lemma IndexStays(strings: seq<Name>, more: seq<Name>, name: Option<Name>)
    requires strings <= more && (name.Some? ==> name.value in strings)
    ensures NameIndex(more, name) == NameIndex(strings, name)
  {
    if name.Some? { IndexPrefix(strings, more, name.value); }
  }

  lemma IndexPrefix(strings: seq<Name>, more: seq<Name>, name: Name)
    requires strings <= more && name in strings
    ensures name in more && IndexOf(more, name) == IndexOf(strings, name)
  {
    if strings[0] != name { IndexPrefix(strings[1..], more[1..], name); }
  }

  lemma NoName(strings: seq<Name>)
    ensures NameIndex(strings, None) == NO_INDEX
  {
  }

  lemma ConcatSnoc(parts: seq<seq<Octet>>, n: nat)
    requires n < |parts|
    ensures Concat(parts[..n + 1]) == Concat(parts[..n]) + parts[n]
  {
    assert parts[..n + 1][..n] == parts[..n];
  }

  /** Interns the names of all temporaries; a temporary without a name gets the sentinel. */
  method InternNames(table: StringTable, temps: seq<Temp>) returns (indices: seq<nat>)
    requires table.Valid() && table.strings == []
    modifies table
    ensures table.Valid() && table.strings == Table(temps, |temps|)
    ensures |indices| == |temps| && forall i | 0 <= i < |temps| :: indices[i] == NameIndex(table.strings, temps[i].name)
  {
    hide NameIndex, IndexOf;
    indices := [];
    for k := 0 to |temps|
      invariant table.Valid() && table.strings == Table(temps, k) && |indices| == k
      invariant forall i | 0 <= i < k :: indices[i] == NameIndex(table.strings, temps[i].name)
      invariant forall i | 0 <= i < k :: temps[i].name.Some? ==> temps[i].name.value in table.strings
    {
      ghost var was := table.strings;
      if temps[k].name.Some? {
        var i := table.Intern(temps[k].name.value);
        indices := indices + [i];
      } else {
        indices := indices + [NO_INDEX];
        NoName(table.strings);
      }
      forall i | 0 <= i < k ensures indices[i] == NameIndex(table.strings, temps[i].name) {
        IndexStays(was, table.strings, temps[i].name);
      }
    }
  }

  /** Appends a count and the records. */
  method WriteList(w: seq<Octet>, parts: seq<seq<Octet>>) returns (r: seq<Octet>)
    ensures r == w + EncodeList(parts)
  {
    r := w + Bytes(|parts|, 4);
    for i := 0 to |parts|
      invariant r == w + (Bytes(|parts|, 4) + Concat(parts[..i]))
    {
      ConcatSnoc(parts, i);
      assert w + (Bytes(|parts|, 4) + Concat(parts[..i])) + parts[i] == w + (Bytes(|parts|, 4) + (Concat(parts[..i]) + parts[i]));
      r := r + parts[i];
    }
    assert parts[..|parts|] == parts;
  }

  /** Appends one context to what is written. */
  method Serialize(c: Ctx, w: seq<Octet>) returns (r: seq<Octet>)
    requires Slots(c.ops)
    ensures r == w + Encode(c)
  {
    hide Bytes, EncodeList, Table, EncodeHeader;
    var header := EncodeHeader(c);
    r := w + header;
    var table := new StringTable();
    var indices := InternNames(table, c.temps);
    var names := NameParts(table.strings);
    var temps := seq(|c.temps|, i requires 0 <= i < |c.temps| => EncodeTemp(c.temps[i], indices[i]));
    assert temps == TempParts(c.temps, table.strings);
    var ops := OpParts(c.ops);
    r := WriteList(r, names);
    r := WriteList(r, temps);
    r := WriteList(r, ops);
    assert r == w + (header + (EncodeList(names) + (EncodeList(temps) + EncodeList(ops))));
  }

  // ---- Reading ----

  /** What is read already, then what a parse makes of the rest. */
  function Then<T>(xs: seq<T>, p: Parsed<seq<T>>): Parsed<seq<T>> {
    match p
    case Bad => Bad
    case Ok(ys, rest) => Ok(xs + ys, rest)
  }

  lemma ThenEnds<T(!new)>(xs: seq<T>, p: Parsed<seq<T>>, rest: seq<Octet>)
    ensures Then([], p) == p && Then(xs, Ok([], rest)) == Ok(xs, rest)
  {
    assert xs + [] == xs;
    if p.Ok? { assert [] + p.value == p.value; }
  }

  lemma ThenStep<T(!new)>(read: seq<Octet> -> Parsed<T>, xs: seq<T>, s: seq<Octet>, n: nat)
    requires Shrinks(read) && n > 0
    ensures Then(xs, ReadMany(read, s, n)) == match read(s) case Bad => Bad case Ok(x, rest) => Then(xs + [x], ReadMany(read, rest, n - 1))
  {
    if read(s).Ok? && ReadMany(read, read(s).rest, n - 1).Ok? {
      var x, ys := read(s).value, ReadMany(read, read(s).rest, n - 1).value;
      assert xs + ([x] + ys) == xs + [x] + ys;
    }
  }

  method ReadRecords<T(!new)>(read: seq<Octet> -> Parsed<T>, s: seq<Octet>, n: nat) returns (r: Parsed<seq<T>>)
    requires Shrinks(read)
    ensures r == ReadMany(read, s, n)
  {
    var xs: seq<T>, rest := [], s;
    ThenEnds(xs, ReadMany(read, s, n), rest);
    for i := 0 to n
      invariant ReadMany(read, s, n) == Then(xs, ReadMany(read, rest, n - i))
    {
      ThenStep(read, xs, rest, n - i);
      var p := read(rest);
      if p.Bad? { return Bad; }
      xs, rest := xs + [p.value], p.rest;
    }
    ThenEnds(xs, Bad, rest);
    r := Ok(xs, rest);
  }

  method ReadCounted<T(!new)>(read: seq<Octet> -> Parsed<T>, s: seq<Octet>) returns (r: Parsed<seq<T>>)
    requires Shrinks(read)
    ensures r == ReadList(read, s)
  {
    var n := ReadNumber(s, 4);
    if n.Bad? { return Bad; }
    r := ReadRecords(read, n.rest, n.value);
  }

  /** One label for every index up to the largest named. */
  method CountLabels(ops: seq<Op>) returns (n: nat)
    ensures n == Labels(ops)
  {
    n := 0;
    for i := 0 to |ops|
      invariant n == Labels(ops[..i])
    {
      assert ops[..i + 1][..i] == ops[..i];
      var bound := LabelBound(ops[i]);
      while n < bound
        invariant n <= bound || n == Labels(ops[..i])
        invariant Labels(ops[..i]) <= n
      {
        n := n + 1;
      }
    }
    assert ops[..|ops|] == ops;
  }

  method DeserializeTb(utf8: Name -> bool, globals: nat, s: seq<Octet>) returns (r: Parsed<Ctx>)
    ensures r == ReadTb(utf8, globals, s)
  {
    hide ReadList, ReadName, ReadTemp, ReadOp, Labels;
    var strings := ReadCounted(NameReader(utf8), s);
    if strings.Bad? { return Bad; }
    var temps := ReadCounted(TempReader(strings.value), strings.rest);
    if temps.Bad? { return Bad; }
    var ops := ReadCounted(ReadOp, temps.rest);
    if ops.Bad? { return Bad; }
    var labels := CountLabels(ops.value);
    r := Ok(Ctx(globals, labels, temps.value, ops.value), ops.rest);
  }

  function More(cs: seq<Ctx>, r: Option<seq<Ctx>>): Option<seq<Ctx>> {
    match r
    case None => None
    case Some(more) => Some(cs + more)
  }

  lemma Before(cs: seq<Ctx>, r: Option<seq<Ctx>>)
    ensures More([], r) == r && More(cs, Some([])) == Some(cs)
  {
    assert cs + [] == cs;
    if r.Some? { assert [] + r.value == r.value; }
  }

  lemma MoreMore(cs: seq<Ctx>, ds: seq<Ctx>, r: Option<seq<Ctx>>)
    ensures More(cs, More(ds, r)) == More(cs + ds, r)
  {
    if r.Some? { assert cs + (ds + r.value) == cs + ds + r.value; }
  }

  /** Reads contexts until fewer than four bytes are left; every other shortfall is an error. */
  method Deserialize(utf8: Name -> bool, s: seq<Octet>) returns (r: Option<seq<Ctx>>)
    ensures r == Decode(utf8, s)
  {
    hide ReadTb, Number;
    var cs: seq<Ctx>, rest := [], s;
    Before([], Decode(utf8, s));
    while |rest| >= 4
      invariant Decode(utf8, s) == More(cs, Decode(utf8, rest))
      decreases |rest|
    {
      if rest[..4] != MAGIC || |rest| < 20 || Number(rest[4..6]) != VERSION { return None; }
      var globals, count := Number(rest[8..12]), Number(rest[16..20]);
      var tbs := ReadTbs(utf8, globals, rest[20..], count);
      if tbs.Bad? { return None; }
      MoreMore(cs, tbs.value, Decode(utf8, tbs.rest));
      cs, rest := cs + tbs.value, tbs.rest;
    }
    Before(cs, None);
    r := Some(cs);
  }

  method ReadTbs(utf8: Name -> bool, globals: nat, s: seq<Octet>, n: nat) returns (r: Parsed<seq<Ctx>>)
    ensures r == ReadMany(TbReader(utf8, globals), s, n)
  {
    hide ReadTb;
    var read := TbReader(utf8, globals);
    var xs: seq<Ctx>, rest := [], s;
    ThenEnds(xs, ReadMany(read, s, n), rest);
    for i := 0 to n
      invariant ReadMany(read, s, n) == Then(xs, ReadMany(read, rest, n - i))
    {
      ThenStep(read, xs, rest, n - i);
      var p := DeserializeTb(utf8, globals, rest);
      if p.Bad? { return Bad; }
      xs, rest := xs + [p.value], p.rest;
    }
    ThenEnds(xs, Bad, rest);
    r := Ok(xs, rest);
  }
}
