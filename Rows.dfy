/**
 * One row of the editable table is a plain JavaScript object mapping column
 * names to cell texts. Its keys keep insertion order, so it is modelled as a
 * sequence of (key, value) entries. Assigning to a key overwrites the entry in
 * place when the key exists and appends a new entry otherwise; `delete`
 * removes the entry and keeps the order of the rest.
 */
module Rows {
  import opened Wrappers

  type Row = seq<(string, string)>

  /** `Object.keys(row)`. */
  function Keys(row: Row): seq<string>
  {
    seq(|row|, i requires 0 <= i < |row| => row[i].0)
  }

  predicate Distinct(ks: seq<string>)
  {
    forall i, j :: 0 <= i < j < |ks| ==> ks[i] != ks[j]
  }

  /** Every JavaScript object has pairwise different keys. */
  predicate WellFormed(row: Row)
  {
    Distinct(Keys(row))
  }

  lemma KeysCons(row: Row)
    requires row != []
    ensures Keys(row) == [row[0].0] + Keys(row[1..])
  {
  }

  /** `row[k]`, with `None` for `undefined`. */
  function Get(row: Row, k: string): (r: Option<string>)
    ensures r.Some? <==> k in Keys(row)
    ensures r.Some? ==> (k, r.value) in row
  {
    if row == [] then None
    else
      KeysCons(row);
      if row[0].0 == k then Some(row[0].1) else Get(row[1..], k)
  }

  lemma {:induction false} GetAt(row: Row, i: nat)
    requires WellFormed(row) && i < |row|
    ensures Get(row, row[i].0) == Some(row[i].1)
  {
    if i > 0 {
      assert row[0].0 != row[i].0 by { assert Keys(row)[0] != Keys(row)[i]; }
      assert WellFormed(row[1..]) by {
        forall a, b | 0 <= a < b < |row[1..]| ensures Keys(row[1..])[a] != Keys(row[1..])[b] {
          assert Keys(row)[a + 1] != Keys(row)[b + 1];
        }
      }
      GetAt(row[1..], i - 1);
    }
  }

  /** `row[k] = v`: overwrite in place if `k` is a key, else append. */
  function Set(row: Row, k: string, v: string): (r: Row)
    ensures Get(r, k) == Some(v)
    ensures forall k' :: k' != k ==> Get(r, k') == Get(row, k')
    ensures Keys(r) == if k in Keys(row) then Keys(row) else Keys(row) + [k]
    ensures forall e :: e in r ==> e == (k, v) || e in row
  {
    if row == [] then [(k, v)]
    else if row[0].0 == k then
      KeysCons(row);
      KeysCons([(k, v)] + row[1..]);
      assert ([(k, v)] + row[1..])[1..] == row[1..];
      [(k, v)] + row[1..]
    else
      var tail := Set(row[1..], k, v);
      KeysCons(row);
      KeysCons([row[0]] + tail);
      assert ([row[0]] + tail)[1..] == tail;
      [row[0]] + tail
  }

  lemma SetPreservesWellFormed(row: Row, k: string, v: string)
    requires WellFormed(row)
    ensures WellFormed(Set(row, k, v))
  {
  }

  lemma SetAppends(row: Row, k: string, v: string)
    requires k !in Keys(row)
    ensures Set(row, k, v) == row + [(k, v)]
  {
    if row != [] {
      KeysCons(row);
      SetAppends(row[1..], k, v);
      assert [row[0]] + (row[1..] + [(k, v)]) == row + [(k, v)];
    }
  }

  /** `ks` with every occurrence of `k` dropped, the rest in order. */
  function Without(ks: seq<string>, k: string): (r: seq<string>)
    ensures forall c :: c in r <==> c in ks && c != k
    ensures |r| <= |ks|
    ensures Distinct(ks) ==> Distinct(r) && |r| == |ks| - (if k in ks then 1 else 0)
  {
    if ks == [] then []
    else
      var tail := Without(ks[1..], k);
      assert forall c :: c in ks <==> c == ks[0] || c in ks[1..];
      assert Distinct(ks) ==> Distinct(ks[1..]) && ks[0] !in ks[1..];
      if ks[0] == k then
        tail
      else
        [ks[0]] + tail
  }

  /**
   * Dropping a name keeps the others in order: a list without `k` is
   * unchanged, and in a list of distinct names only position `j` of `k` goes.
   */
  lemma {:induction false} WithoutOrder(ks: seq<string>, k: string)
    ensures k !in ks ==> Without(ks, k) == ks
    ensures Distinct(ks) ==> forall j :: 0 <= j < |ks| && ks[j] == k ==> Without(ks, k) == ks[..j] + ks[j + 1..]
  {
    if ks != [] {
      WithoutOrder(ks[1..], k);
      assert forall i :: 0 <= i < |ks[1..]| ==> ks[1..][i] == ks[i + 1];
      if Distinct(ks) {
        assert Distinct(ks[1..]);
        forall j | 0 <= j < |ks| && ks[j] == k
          ensures Without(ks, k) == ks[..j] + ks[j + 1..]
        {
          if j == 0 {
            assert k !in ks[1..];
            assert ks[..0] + ks[1..] == ks[1..];
          } else {
            assert ks[1..][j - 1] == k && ks[0] != k;
            assert [ks[0]] + (ks[1..][..j - 1] + ks[1..][j..]) == ks[..j] + ks[j + 1..];
          }
        }
      }
      if k !in ks {
        assert ks[0] != k && k !in ks[1..];
        assert [ks[0]] + ks[1..] == ks;
      }
    }
  }

  /** `delete row[k]`. */
  function Delete(row: Row, k: string): (r: Row)
    ensures Get(r, k) == None
    ensures forall k' :: k' != k ==> Get(r, k') == Get(row, k')
    ensures Keys(r) == Without(Keys(row), k)
    ensures forall e :: e in r ==> e in row
  {
    if row == [] then []
    else
      var tail := Delete(row[1..], k);
      KeysCons(row);
      if row[0].0 == k then tail
      else
        KeysCons([row[0]] + tail);
        assert ([row[0]] + tail)[1..] == tail;
        [row[0]] + tail
  }

  /** The table's column names: the keys of its first row, none if it has no rows. */
  function Columns(rows: seq<Row>): (cols: seq<string>)
    ensures rows == [] ==> cols == []
    ensures rows != [] ==> cols == Keys(rows[0])
  {
    if |rows| > 0 then Keys(rows[0]) else []
  }
}
