/** The lookup function as a loop in place: a pointer over the table and a string written through a reference. */
module LookupMethod {
  import opened Basics
  import opened Syntax
  import opened Program
  import opened Lookup
  import opened Tables
  import opened Loading

  /** A `std::string` passed by reference. */
  class StringRef {
    var value: string

    constructor (v: string)
      ensures value == v
    {
      value := v;
    }
  }

  /** A row of the table with its pointers followed; None stands for NULL. */
  datatype Entry = Entry(name: Option<string>, data: Option<string>)

  /** Rows before `k` have a name, and it is another one. */
  predicate Differ(rows: seq<Entry>, name: string, k: nat) {
    k <= |rows| && forall j :: 0 <= j < k ==> rows[j].name.Some? && rows[j].name.value != name
  }

  /** Row `k` is the first of that name. */
  predicate HitAt(rows: seq<Entry>, name: string, k: nat) {
    k < |rows| && Differ(rows, name, k) && rows[k].name == Some(name)
  }

  /** Row `k` ends the table, and no row before it has that name. */
  predicate MissAt(rows: seq<Entry>, name: string, k: nat) {
    k < |rows| && Differ(rows, name, k) && rows[k].name == None
  }

  /** Some row has no name, and the rows before it have data. */
  predicate Terminated(rows: seq<Entry>) {
    exists k :: 0 <= k < |rows| && rows[k].name == None && forall j :: 0 <= j < k ==> rows[j].data.Some?
  }

  /**
   * The scan stops within the table: at the first row of that name, whose data it copies, or
   * at the terminating row, every row before it compared and `data` untouched.
   */
  method FindEmbeddedFile(table: array<Entry>, name: string, data: StringRef) returns (found: bool)
    requires Terminated(table[..])
    modifies data
    ensures found ==> exists k: nat :: HitAt(table[..], name, k) && table[k].data == Some(data.value)
    ensures !found ==> data.value == old(data.value) && exists k: nat :: MissAt(table[..], name, k)
  {
    ghost var end :| 0 <= end < table.Length && table[..][end].name == None &&
                     forall j :: 0 <= j < end ==> table[..][j].data.Some?;
    var p := 0;
    while table[p].name.Some?
      invariant p <= end && Differ(table[..], name, p) && data.value == old(data.value)
      decreases end - p
    {
      if table[p].name.value == name {
        assert table[..][p].data.Some?;
        data.value := table[p].data.value;
        assert HitAt(table[..], name, p);
        return true;
      }
      p := p + 1;
    }
    assert MissAt(table[..], name, p);
    return false;
  }

  // ----- on the table of a header

  /** What a pointer points to. */
  function Follow(q: Program, a: Address): Option<string>
    requires Resolves(q, a)
  {
    if a.NullAddress? then None else Some(q.strings[a.id])
  }

  /** The table of a program with its pointers followed. */
  function FollowTable(q: Program, rows: seq<seq<Address>>): (es: seq<Entry>)
    requires HasTable(q, rows)
    ensures |es| == |rows|
  {
    seq(|rows|, k requires 0 <= k < |rows| =>
      assert RowResolves(q, 2, rows[k]) && Resolves(q, rows[k][0]) && Resolves(q, rows[k][1]);
      Entry(Follow(q, rows[k][0]), Follow(q, rows[k][1])))
  }

  function EntriesOf(fs: seq<File>): (rows: seq<Entry>)
    ensures |rows| == |fs| + 1 && rows[|fs|] == Entry(None, None)
    ensures forall k :: 0 <= k < |fs| ==> rows[k] == Entry(Some(fs[k].name), Some(fs[k].contents))
  {
    seq(|fs|, k requires 0 <= k < |fs| => Entry(Some(fs[k].name), Some(fs[k].contents))) + [Entry(None, None)]
  }

  /** The rows of a header's table lead to the names and bytes of its files. */
  lemma {:induction false} HeaderEntries(fs: seq<File>)
    ensures HasTable(ProgramOf(fs), TableRows(1, |fs| + 1))
    ensures FollowTable(ProgramOf(fs), TableRows(1, |fs| + 1)) == EntriesOf(fs)
  {
    var q, rows := ProgramOf(fs), TableRows(1, |fs| + 1);
    HeaderHasTable(fs);
    TableRowsAt(1, |fs| + 1);
    forall k | 0 <= k < |rows| ensures FollowTable(q, rows)[k] == EntriesOf(fs)[k] {
      if k < |fs| {
        FileStringsAt(map[], fs, 1, k);
        assert rows[k] == RowAddresses(1 + k);
      }
    }
  }

  lemma {:induction false} FirstMatchFrom(fs: seq<File>, name: string, k: nat)
    requires k <= |fs| && Differ(EntriesOf(fs), name, k)
    ensures FirstMatch(fs, name) == FirstMatch(fs[k..], name)
    decreases k
  {
    if k == 0 {
      assert fs[0..] == fs;
    } else {
      FirstMatchFrom(fs, name, k - 1);
      assert EntriesOf(fs)[k - 1].name.value != name;
      assert fs[k - 1..][0] == fs[k - 1] && fs[k - 1..][1..] == fs[k..];
    }
  }

  /** The loop answers what the text of the header answers when it is read and run. */
  lemma {:induction false} LoopFindsFirstMatch(fs: seq<File>, name: string, k: nat)
    ensures HitAt(EntriesOf(fs), name, k) ==> k < |fs| && FirstMatch(fs, name) == Some(fs[k].contents)
    ensures MissAt(EntriesOf(fs), name, k) ==> k == |fs| && FirstMatch(fs, name) == None
    ensures Terminated(EntriesOf(fs))
  {
    var rows := EntriesOf(fs);
    assert rows[|fs|].name == None;
    if HitAt(rows, name, k) {
      FirstMatchFrom(fs, name, k);
      assert fs[k..][0] == fs[k];
    } else if MissAt(rows, name, k) {
      FirstMatchFrom(fs, name, k);
      assert fs[k..] == [];
    }
  }

  /** The loop on the table of a header: the first file of that name, or `data` untouched. */
  method FindInHeader(ghost fs: seq<File>, table: array<Entry>, name: string, data: StringRef) returns (found: bool)
    requires HasTable(ProgramOf(fs), TableRows(1, |fs| + 1))
    requires table[..] == FollowTable(ProgramOf(fs), TableRows(1, |fs| + 1))
    modifies data
    ensures found == FirstMatch(fs, name).Some?
    ensures data.value == if found then FirstMatch(fs, name).value else old(data.value)
  {
    HeaderEntries(fs);
    LoopFindsFirstMatch(fs, name, 0);
    found := FindEmbeddedFile(table, name, data);
    if found {
      ghost var k: nat :| HitAt(table[..], name, k) && table[k].data == Some(data.value);
      LoopFindsFirstMatch(fs, name, k);
    } else {
      ghost var k: nat :| MissAt(table[..], name, k);
      LoopFindsFirstMatch(fs, name, k);
    }
  }
}
