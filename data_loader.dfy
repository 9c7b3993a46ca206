/**
 * `load_and_combine` after the two CSV reads (src/data_loader.py): the two
 * tables are concatenated, duplicate players are dropped keeping the first
 * occurrence, and every missing cell is filled with "Unknown".
 */
module DataLoader {
  import opened Wrappers
  import opened Frames

  // ---------------------------------------------------------------------------
  // pd.concat([df1, df2], ignore_index=True)

  /** The columns of the concatenation: those of `a`, then the new ones of `b`, in order. */
  function UnionColumns(a: seq<string>, b: seq<string>): (r: seq<string>)
    ensures forall c :: c in r <==> c in a || c in b
    ensures |a| <= |r| && r[..|a|] == a
    decreases |b|
  {
    if b == [] then a
    else if b[0] in a then UnionColumns(a, b[1..])
    else
      var r := UnionColumns(a + [b[0]], b[1..]);
      assert r[..|a|] == r[..|a| + 1][..|a|];
      r
  }

  /** A source row as a row of the concatenation: the columns it lacks hold NaN. */
  function Widen(row: Row, columns: seq<string>): (r: Row)
    ensures r.Keys == set c | c in columns
    ensures forall c :: c in columns && c in row ==> r[c] == row[c]
    ensures forall c :: c in columns && c !in row ==> r[c] == Missing
  {
    map c | c in columns :: CellAt(row, c)
  }

  function WidenAll(rows: seq<Row>, columns: seq<string>): (r: seq<Row>)
    ensures |r| == |rows|
    ensures forall i :: 0 <= i < |rows| ==> r[i] == Widen(rows[i], columns)
  {
    seq(|rows|, i requires 0 <= i < |rows| => Widen(rows[i], columns))
  }

  function Concat(t1: Table, t2: Table): (r: Table)
    ensures r.columns == UnionColumns(t1.columns, t2.columns)
    ensures WellFormed(r)
    ensures |r.rows| == |t1.rows| + |t2.rows|
    ensures forall i :: 0 <= i < |t1.rows| ==> r.rows[i] == Widen(t1.rows[i], r.columns)
    ensures forall i :: 0 <= i < |t2.rows| ==> r.rows[|t1.rows| + i] == Widen(t2.rows[i], r.columns)
  {
    var columns := UnionColumns(t1.columns, t2.columns);
    Table(columns, WidenAll(t1.rows, columns) + WidenAll(t2.rows, columns))
  }

  // ---------------------------------------------------------------------------
  // drop_duplicates(subset="Player")

  /** What `drop_duplicates` compares: all missing values are one key, numbers compare by value. */
  datatype Key = NAKey | NumKey(value: real) | StrKey(s: string)

  function KeyOf(c: Cell): (k: Key)
    ensures k == NAKey <==> IsNA(c)
  {
    match c
    case Str(s) => StrKey(s)
    case Num(v, _) => NumKey(v)
    case _ => NAKey
  }

  function PlayerKey(row: Row): Key {
    KeyOf(CellAt(row, "Player"))
  }

  /** Row `i` is the first row with its `Player` value. */
  predicate IsFirst(rows: seq<Row>, i: nat)
    requires i < |rows|
  {
    forall j :: 0 <= j < i ==> PlayerKey(rows[j]) != PlayerKey(rows[i])
  }

  /** The positions `drop_duplicates` keeps among the first `n` rows, in increasing order. */
  function KeptPrefix(rows: seq<Row>, n: nat): (r: seq<nat>)
    requires n <= |rows|
    ensures forall k :: 0 <= k < |r| ==> r[k] < n
    ensures forall k, l :: 0 <= k < l < |r| ==> r[k] < r[l]
    ensures forall i :: 0 <= i < n ==> (i in r <==> IsFirst(rows, i))
  {
    if n == 0 then []
    else
      var prev := KeptPrefix(rows, n - 1);
      if IsFirst(rows, n - 1) then prev + [n - 1] else prev
  }

  /** The positions kept by `drop_duplicates(subset="Player")` (keep="first"). */
  function Kept(rows: seq<Row>): seq<nat> {
    KeptPrefix(rows, |rows|)
  }

  function DropDuplicates(t: Table): (r: Table)
    ensures r.columns == t.columns
    ensures |r.rows| == |Kept(t.rows)|
    ensures forall k :: 0 <= k < |r.rows| ==> r.rows[k] == t.rows[Kept(t.rows)[k]]
  {
    var kept := Kept(t.rows);
    Table(t.columns, seq(|kept|, k requires 0 <= k < |kept| => t.rows[kept[k]]))
  }

  /** No two kept rows share a `Player` value; in particular at most one kept row lacks it. */
  lemma KeptKeysDistinct(t: Table, k: nat, l: nat)
    requires k < l < |DropDuplicates(t).rows|
    ensures PlayerKey(DropDuplicates(t).rows[k]) != PlayerKey(DropDuplicates(t).rows[l])
    ensures PlayerKey(DropDuplicates(t).rows[k]) != NAKey || PlayerKey(DropDuplicates(t).rows[l]) != NAKey
  {
    var kept := Kept(t.rows);
    assert kept[k] < kept[l];
    assert kept[l] in kept;
    assert IsFirst(t.rows, kept[l]);
  }

  /** The first row with a given key precedes (or is) every row with that key, and is kept. */
  lemma {:induction false} FirstOccurrenceKept(rows: seq<Row>, i: nat)
    requires i < |rows|
    ensures exists j :: 0 <= j <= i && j in Kept(rows) && PlayerKey(rows[j]) == PlayerKey(rows[i])
    decreases i
  {
    if IsFirst(rows, i) {
      assert i in Kept(rows);
    } else {
      var j :| 0 <= j < i && PlayerKey(rows[j]) == PlayerKey(rows[i]);
      FirstOccurrenceKept(rows, j);
    }
  }

  /** Every `Player` value of the input survives, carried by its first occurrence. */
  lemma DropDuplicatesKeepsFirst(t: Table, i: nat)
    requires i < |t.rows|
    ensures exists k :: (0 <= k < |DropDuplicates(t).rows| && Kept(t.rows)[k] <= i &&
      PlayerKey(DropDuplicates(t).rows[k]) == PlayerKey(t.rows[i]) &&
      IsFirst(t.rows, Kept(t.rows)[k]))
  {
    FirstOccurrenceKept(t.rows, i);
    var j :| 0 <= j <= i && j in Kept(t.rows) && PlayerKey(t.rows[j]) == PlayerKey(t.rows[i]);
    var k :| 0 <= k < |Kept(t.rows)| && Kept(t.rows)[k] == j;
    assert DropDuplicates(t).rows[k] == t.rows[j];
  }

  // ---------------------------------------------------------------------------
  // fillna("Unknown")

  function FillCell(c: Cell): (r: Cell)
    ensures !IsNA(r)
    ensures !IsNA(c) ==> r == c
    ensures IsNA(c) ==> r == Str("Unknown")
  {
    if IsNA(c) then Str("Unknown") else c
  }

  function FillRow(row: Row): (r: Row)
    ensures r.Keys == row.Keys
    ensures forall c :: c in r ==> r[c] == FillCell(row[c])
  {
    map c | c in row :: FillCell(row[c])
  }

  function FillNa(t: Table): (r: Table)
    ensures r.columns == t.columns && |r.rows| == |t.rows|
    ensures forall i :: 0 <= i < |r.rows| ==> r.rows[i] == FillRow(t.rows[i])
    ensures forall i, c :: 0 <= i < |r.rows| && c in r.rows[i] ==> !IsNA(r.rows[i][c])
  {
    Table(t.columns, seq(|t.rows|, i requires 0 <= i < |t.rows| => FillRow(t.rows[i])))
  }

  // ---------------------------------------------------------------------------
  // load_and_combine

  /** `drop_duplicates(subset="Player")` raises KeyError when there is no Player column. */
  function LoadAndCombine(t1: Table, t2: Table): (r: Result<Table, PyError>)
    ensures r.Failure? <==> "Player" !in t1.columns && "Player" !in t2.columns
    ensures r.Failure? ==> r.error == KeyError
  {
    var combined := Concat(t1, t2);
    if "Player" !in combined.columns then Failure(KeyError)
    else Success(FillNa(DropDuplicates(combined)))
  }

  /** The rows of the result are the kept rows of the concatenation, in order, filled. */
  lemma LoadAndCombineRows(t1: Table, t2: Table, k: nat)
    requires LoadAndCombine(t1, t2).Success?
    requires k < |LoadAndCombine(t1, t2).value.rows|
    ensures var combined := Concat(t1, t2);
      var i := Kept(combined.rows)[k];
      i < |t1.rows| + |t2.rows| &&
      LoadAndCombine(t1, t2).value.rows[k] ==
        FillRow(if i < |t1.rows| then Widen(t1.rows[i], combined.columns)
                else Widen(t2.rows[i - |t1.rows|], combined.columns))
  {
  }

  /** A player listed in the first file is taken from the first file. */
  lemma FirstFileWins(t1: Table, t2: Table, k: nat, i: nat)
    requires k < |DropDuplicates(Concat(t1, t2)).rows| && i < |t1.rows|
    requires PlayerKey(DropDuplicates(Concat(t1, t2)).rows[k]) == PlayerKey(Concat(t1, t2).rows[i])
    ensures Kept(Concat(t1, t2).rows)[k] < |t1.rows|
  {
    var rows := Concat(t1, t2).rows;
    var j := Kept(rows)[k];
    assert j in Kept(rows) && IsFirst(rows, j);
  }

  /** A column only the second file has reads "Unknown" in every row taken from the first file. */
  lemma ColumnFromOtherFileIsUnknown(t1: Table, t2: Table, k: nat, c: string)
    requires WellFormed(t1)
    requires LoadAndCombine(t1, t2).Success?
    requires k < |LoadAndCombine(t1, t2).value.rows|
    requires Kept(Concat(t1, t2).rows)[k] < |t1.rows|
    requires c in t2.columns && c !in t1.columns
    ensures c in LoadAndCombine(t1, t2).value.rows[k]
    ensures LoadAndCombine(t1, t2).value.rows[k][c] == Str("Unknown")
  {
    var combined := Concat(t1, t2);
    var i := Kept(combined.rows)[k];
    LoadAndCombineRows(t1, t2, k);
    assert c !in t1.rows[i];
    assert c in combined.columns;
    assert Widen(t1.rows[i], combined.columns)[c] == Missing;
  }
}
