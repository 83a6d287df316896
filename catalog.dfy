/**
 * The catalog object: the categories it loads (in the tree order the query
 * and `sort_tree` give), the smart categories it adds before or after them,
 * and the `categories` template loop, which walks the loaded categories with
 * the array's internal pointer.
 *
 * The category array is a PHP ordered array keyed by category id: the keys
 * in insertion order (`keys`) and, position by position, the category stored
 * under each (`vals`). The internal pointer is a position in that order; a
 * position at or past the end is PHP's "no current element".
 */
module Catalog {
  import opened Wrappers
  import opened CatalogMarkup
  import Strings

  /** A row of the category query: the category's fields and its product count. */
  datatype CategoryRow = CategoryRow(id: int, parent: int, name: string, uri: string, depth: nat, total: int)

  /** The category `load_categories` builds from a row: populated from it, not smart, with no children yet. */
  function Populate(r: CategoryRow): Category
  {
    Category(r.id, r.name, r.uri, r.depth, r.total, false, false)
  }

  // ---------------------------------------------------------------------
  // The category array
  // ---------------------------------------------------------------------

  /** A PHP array keyed by integers: its keys in order and the value under each key, at the same position. */
  datatype Table = Table(keys: seq<int>, vals: seq<Category>)

  predicate Distinct(s: seq<int>)
  {
    forall i, j :: 0 <= i < j < |s| ==> s[i] != s[j]
  }

  /** One value per key, and every key occurs once. */
  predicate WellFormed(t: Table)
  {
    |t.keys| == |t.vals| && Distinct(t.keys)
  }

  const EmptyTable: Table := Table([], [])

  /** The position of a key. */
  function IndexOf(keys: seq<int>, k: int): (i: nat)
    requires k in keys
    ensures i < |keys| && keys[i] == k
  {
    if keys[0] == k then 0 else 1 + IndexOf(keys[1..], k)
  }

  /** `$a[$k]` for a key the array has. */
  function Get(t: Table, k: int): Category
    requires WellFormed(t) && k in t.keys
  {
    t.vals[IndexOf(t.keys, k)]
  }

  /** `$a[$k] = $v`: an existing key keeps its place and takes the new value, a new key goes last. */
  function Put(t: Table, k: int, v: Category): (r: Table)
    requires WellFormed(t)
    ensures WellFormed(r)
  {
    if k in t.keys then Table(t.keys, t.vals[IndexOf(t.keys, k) := v])
    else Table(t.keys + [k], t.vals + [v])
  }

  /**
   * After storing, the key yields the stored value and every other key the
   * value it had; the keys are the old ones, in place, with `k` after them
   * when it is new.
   */
  lemma PutGet(t: Table, k: int, v: Category, k': int)
    requires WellFormed(t)
    ensures k' in Put(t, k, v).keys <==> k' in t.keys || k' == k
    ensures k' in Put(t, k, v).keys ==> Get(Put(t, k, v), k') == if k' == k then v else Get(t, k')
    ensures Put(t, k, v).keys == if k in t.keys then t.keys else t.keys + [k]
  {
    var p := Put(t, k, v);
    if k' in p.keys {
      var i := IndexOf(p.keys, k');
      if k' != k && k' in t.keys {
        var i0 := IndexOf(t.keys, k');
        assert p.keys[i0] == k';
        assert i == i0;
      }
    }
  }

  /** The key `$a[] = $v` uses: one past the largest non-negative key, and 0 when there is none. */
  function NextKey(keys: seq<int>): (r: int)
    ensures r >= 0
  {
    if keys == [] then 0
    else
      var m := NextKey(keys[..|keys| - 1]);
      if keys[|keys| - 1] >= m then keys[|keys| - 1] + 1 else m
  }

  /** The next key is above every key, so it is a new one. */
  lemma {:induction false} NextKeyAbove(keys: seq<int>)
    ensures forall i :: 0 <= i < |keys| ==> keys[i] < NextKey(keys)
  {
    if keys != [] {
      NextKeyAbove(keys[..|keys| - 1]);
    }
  }

  /** The keys `0 .. n-1`, which a renumbered array has. */
  function Iota(n: nat): (r: seq<int>)
    ensures |r| == n && forall i :: 0 <= i < n ==> r[i] == i
  {
    seq(n, i => i)
  }

  /** The array PHP rebuilds when it renumbers: the same values under the keys 0, 1, … */
  function Renumber(vals: seq<Category>): (t: Table)
    ensures WellFormed(t) && t.vals == vals && t.keys == Iota(|vals|)
  {
    Table(Iota(|vals|), vals)
  }

  // ---------------------------------------------------------------------
  // load_categories
  // ---------------------------------------------------------------------

  /**
   * One row of the loading loop: store the populated category under its id,
   * then mark its parent as having children when the row has more than one
   * product and the parent is loaded.
   */
  function LoadRow(t: Table, r: CategoryRow): (t': Table)
    requires WellFormed(t)
    ensures WellFormed(t')
  {
    var t1 := Put(t, r.id, Populate(r));
    if r.total > 1 && r.parent in t1.keys
    then Put(t1, r.parent, Get(t1, r.parent).(children := true))
    else t1
  }

  /** The array after loading the first `n` rows into `t`. */
  function LoadRows(t: Table, rows: seq<CategoryRow>, n: nat): (t': Table)
    requires WellFormed(t) && n <= |rows|
    ensures WellFormed(t')
  {
    if n == 0 then t else LoadRow(LoadRows(t, rows, n - 1), rows[n - 1])
  }

  /** Loading only adds keys after the ones already there and never moves those. */
  lemma {:induction false} LoadRowsKeepsOrder(t: Table, rows: seq<CategoryRow>, n: nat)
    requires WellFormed(t) && n <= |rows|
    ensures var o := LoadRows(t, rows, n).keys; |t.keys| <= |o| && o[..|t.keys|] == t.keys
  {
    if n > 0 {
      LoadRowsKeepsOrder(t, rows, n - 1);
      var prev := LoadRows(t, rows, n - 1);
      assert LoadRows(t, rows, n) == LoadRow(prev, rows[n - 1]);
      LoadRowKeys(prev, rows[n - 1]);
      PrefixOfPrefix(t.keys, prev.keys, LoadRows(t, rows, n).keys);
    } else {
      assert t.keys[..|t.keys|] == t.keys;
    }
  }

  /** One row keeps the keys in place and adds at most its own id after them. */
  lemma LoadRowKeys(t: Table, r: CategoryRow)
    requires WellFormed(t)
    ensures LoadRow(t, r).keys == if r.id in t.keys then t.keys else t.keys + [r.id]
  {
    var t1 := Put(t, r.id, Populate(r));
    assert t1.keys == if r.id in t.keys then t.keys else t.keys + [r.id];
    if r.total > 1 && r.parent in t1.keys {
      assert Put(t1, r.parent, Get(t1, r.parent).(children := true)).keys == t1.keys;
    }
  }

  lemma PrefixOfPrefix(a: seq<int>, b: seq<int>, c: seq<int>)
    ensures |a| <= |b| <= |c| && c[..|b|] == b && b[..|a|] == a ==> c[..|a|] == a
  {
    if |a| <= |b| <= |c| && c[..|b|] == b {
      assert c[..|a|] == c[..|b|][..|a|];
    }
  }

  /** The last of the first `n` rows with id `k`. */
  function LastRow(rows: seq<CategoryRow>, n: nat, k: int): (l: nat)
    requires n <= |rows| && exists j :: 0 <= j < n && rows[j].id == k
    ensures l < n && rows[l].id == k && forall j :: l < j < n ==> rows[j].id != k
  {
    if rows[n - 1].id == k then n - 1 else LastRow(rows, n - 1, k)
  }

  /** Some row in `[from, n)` has more than one product and names `k` as its parent. */
  predicate NamesParent(rows: seq<CategoryRow>, from: nat, n: nat, k: int)
    requires n <= |rows|
  {
    exists j :: from <= j < n && rows[j].total > 1 && rows[j].parent == k
  }

  /** After loading, the array holds exactly the keys it had and the id of every row. */
  lemma {:induction false} LoadRowsHas(t: Table, rows: seq<CategoryRow>, n: nat, k: int)
    requires WellFormed(t) && n <= |rows|
    ensures k in LoadRows(t, rows, n).keys <==> k in t.keys || exists j :: 0 <= j < n && rows[j].id == k
  {
    if n > 0 {
      LoadRowsHas(t, rows, n - 1, k);
      var prev := LoadRows(t, rows, n - 1);
      assert LoadRows(t, rows, n) == LoadRow(prev, rows[n - 1]);
      LoadRowKeys(prev, rows[n - 1]);
      if k == rows[n - 1].id {
        assert exists j :: 0 <= j < n && rows[j].id == k;
      } else if exists j :: 0 <= j < n && rows[j].id == k {
        var j :| 0 <= j < n && rows[j].id == k;
        assert j < n - 1;
      }
    }
  }

  /**
   * A category loaded from a row is that of the last row with its id, and it
   * has children exactly when that row or a later one has more than one
   * product and names it as parent.
   */
  lemma {:induction false} LoadRowsValue(t: Table, rows: seq<CategoryRow>, n: nat, k: int)
    requires WellFormed(t) && n <= |rows|
    requires exists j :: 0 <= j < n && rows[j].id == k
    ensures var t' := LoadRows(t, rows, n);
      var l := LastRow(rows, n, k);
      k in t'.keys && Get(t', k) == Populate(rows[l]).(children := NamesParent(rows, l, n, k))
  {
    var r := rows[n - 1];
    var prev := LoadRows(t, rows, n - 1);
    assert LoadRows(t, rows, n) == LoadRow(prev, r);
    LoadRowStep(prev, r, k);
    if r.id == k {
      assert LastRow(rows, n, k) == n - 1;
      assert NamesParent(rows, n - 1, n, k) <==> r.total > 1 && r.parent == k;
    } else {
      var l := LastRow(rows, n, k);
      assert l < n - 1;
      LoadRowsValue(t, rows, n - 1, k);
      assert LastRow(rows, n - 1, k) == l;
      NamesParentExtend(rows, l, n, k);
    }
  }

  /** A category that was there before and that no row replaces gains children the same way, from any row. */
  lemma {:induction false} LoadRowsKept(t: Table, rows: seq<CategoryRow>, n: nat, k: int)
    requires WellFormed(t) && n <= |rows|
    requires k in t.keys && forall j :: 0 <= j < n ==> rows[j].id != k
    ensures var t' := LoadRows(t, rows, n);
      k in t'.keys && Get(t', k) == Get(t, k).(children := Get(t, k).children || NamesParent(rows, 0, n, k))
  {
    if n > 0 {
      LoadRowsKept(t, rows, n - 1, k);
      var r := rows[n - 1];
      var prev := LoadRows(t, rows, n - 1);
      assert LoadRows(t, rows, n) == LoadRow(prev, r);
      LoadRowStep(prev, r, k);
      NamesParentExtend(rows, 0, n, k);
    }
  }

  /** What one row does to the value of one key. */
  lemma LoadRowStep(t: Table, r: CategoryRow, k: int)
    requires WellFormed(t)
    ensures var t' := LoadRow(t, r);
      && (k in t'.keys <==> k in t.keys || k == r.id)
      && (k == r.id ==> Get(t', k) == Populate(r).(children := r.total > 1 && r.parent == k))
      && (k != r.id && k in t.keys ==>
            Get(t', k) == Get(t, k).(children := Get(t, k).children || (r.total > 1 && r.parent == k)))
  {
    PutGet(t, r.id, Populate(r), k);
    var t1 := Put(t, r.id, Populate(r));
    if r.total > 1 && r.parent in t1.keys {
      PutGet(t1, r.parent, Get(t1, r.parent).(children := true), k);
    }
  }

  lemma NamesParentExtend(rows: seq<CategoryRow>, from: nat, n: nat, k: int)
    requires from < n <= |rows|
    ensures NamesParent(rows, from, n, k) <==>
      NamesParent(rows, from, n - 1, k) || (rows[n - 1].total > 1 && rows[n - 1].parent == k)
  {
    if NamesParent(rows, from, n, k) {
      var j :| from <= j < n && rows[j].total > 1 && rows[j].parent == k;
      if j < n - 1 {
        assert NamesParent(rows, from, n - 1, k);
      }
    }
  }

  // ---------------------------------------------------------------------
  // smart_categories
  // ---------------------------------------------------------------------

  /** The smart category classes, in the order they are added. */
  const Smarts: seq<string> := ["FeaturedProducts", "BestsellerProducts", "NewProducts", "OnSaleProducts"]

  /** `array_unshift`: the value goes first and the array is renumbered. */
  function Unshift(t: Table, c: Category): Table
  {
    Renumber([c] + t.vals)
  }

  /** `array_push`: the value goes last, under the next free key. */
  function Push(t: Table, c: Category): Table
    requires WellFormed(t)
  {
    Put(t, NextKey(t.keys), c)
  }

  lemma PushValues(t: Table, c: Category)
    requires WellFormed(t)
    ensures Push(t, c).vals == t.vals + [c] && Push(t, c).keys == t.keys + [NextKey(t.keys)]
  {
    NextKeyAbove(t.keys);
    assert NextKey(t.keys) !in t.keys;
  }

  /** The array after `smart_categories(mode)` has added the first `n` of `made`. */
  function AddSmarts(t: Table, mode: string, made: seq<Category>, n: nat): (r: Table)
    requires WellFormed(t) && n <= |made|
    ensures WellFormed(r)
  {
    if n == 0 then t
    else
      var t0 := AddSmarts(t, mode, made, n - 1);
      if mode == "before" then Unshift(t0, made[n - 1]) else Push(t0, made[n - 1])
  }

  function Reverse<T>(s: seq<T>): (r: seq<T>)
    ensures |r| == |s| && forall i :: 0 <= i < |s| ==> r[i] == s[|s| - 1 - i]
  {
    if s == [] then [] else [s[|s| - 1]] + Reverse(s[..|s| - 1])
  }

  /**
   * With `before` every smart category is put in front in turn, so they end
   * up first in reverse order, and the array is renumbered from 0.
   */
  lemma {:induction false} SmartsInFront(t: Table, made: seq<Category>, n: nat)
    requires WellFormed(t) && 0 < n <= |made|
    ensures AddSmarts(t, "before", made, n).vals == Reverse(made[..n]) + t.vals
    ensures AddSmarts(t, "before", made, n).keys == Iota(n + |t.vals|)
  {
    if n > 1 {
      SmartsInFront(t, made, n - 1);
    }
    assert made[..n][..n - 1] == made[..n - 1];
    if n == 1 {
      assert Reverse(made[..0]) == [];
    }
    Strings.Associative([made[n - 1]], Reverse(made[..n - 1]), t.vals);
  }

  lemma TakeLast<T>(s: seq<T>, n: nat)
    requires 0 < n <= |s|
    ensures s[..n] == s[..n - 1] + [s[n - 1]]
  {
  }

  /** The keys `from, from + 1, …`, `n` of them. */
  function Consecutive(from: int, n: nat): (r: seq<int>)
    ensures |r| == n
  {
    if n == 0 then [] else Consecutive(from, n - 1) + [from + n - 1]
  }

  /** Otherwise they are appended in order … */
  lemma {:induction false} SmartsAtEnd(t: Table, mode: string, made: seq<Category>, n: nat)
    requires WellFormed(t) && n <= |made| && mode != "before"
    ensures AddSmarts(t, mode, made, n).vals == t.vals + made[..n]
  {
    if n > 0 {
      SmartsAtEnd(t, mode, made, n - 1);
      var prev := AddSmarts(t, mode, made, n - 1);
      assert AddSmarts(t, mode, made, n) == Push(prev, made[n - 1]);
      PushValues(prev, made[n - 1]);
      TakeLast(made, n);
      Strings.Associative(t.vals, made[..n - 1], [made[n - 1]]);
    } else {
      assert made[..0] == [];
    }
  }

  /** … under consecutive keys after the largest one. */
  lemma {:induction false} SmartKeysAtEnd(t: Table, mode: string, made: seq<Category>, n: nat)
    requires WellFormed(t) && n <= |made| && mode != "before"
    ensures AddSmarts(t, mode, made, n).keys == t.keys + Consecutive(NextKey(t.keys), n)
  {
    if n > 0 {
      SmartKeysAtEnd(t, mode, made, n - 1);
      var k := NextKey(t.keys);
      var before := AddSmarts(t, mode, made, n - 1).keys;
      var after := AddSmarts(t, mode, made, n).keys;
      AddSmartsLastKey(t, mode, made, n);
      assert after == before + [NextKey(before)];
      NextKeyConsecutive(t.keys, n - 1);
      KeysStep(t.keys, k, n, before, NextKey(before), after);
    } else {
      assert t.keys + Consecutive(NextKey(t.keys), 0) == t.keys;
    }
  }

  lemma AddSmartsLastKey(t: Table, mode: string, made: seq<Category>, n: nat)
    requires WellFormed(t) && 0 < n <= |made| && mode != "before"
    ensures var t0 := AddSmarts(t, mode, made, n - 1);
      AddSmarts(t, mode, made, n).keys == t0.keys + [NextKey(t0.keys)]
  {
    PushValues(AddSmarts(t, mode, made, n - 1), made[n - 1]);
  }

  lemma KeysStep(keys: seq<int>, k: int, n: nat, before: seq<int>, last: int, after: seq<int>)
    requires 0 < n && before == keys + Consecutive(k, n - 1)
    requires last == k + n - 1 && after == before + [last]
    ensures after == keys + Consecutive(k, n)
  {
    ConsecutiveAppend(keys, k, n);
  }

  lemma ConsecutiveAppend(keys: seq<int>, k: int, n: nat)
    requires 0 < n
    ensures keys + Consecutive(k, n) == (keys + Consecutive(k, n - 1)) + [k + n - 1]
  {
    Strings.Associative(keys, Consecutive(k, n - 1), [k + n - 1]);
  }

  /** After `n` consecutive keys from the next free key, the next free key is `n` further on. */
  lemma {:induction false} NextKeyConsecutive(keys: seq<int>, n: nat)
    ensures NextKey(keys + Consecutive(NextKey(keys), n)) == NextKey(keys) + n
  {
    var o := keys + Consecutive(NextKey(keys), n);
    if n > 0 {
      NextKeyConsecutive(keys, n - 1);
      assert o[..|o| - 1] == keys + Consecutive(NextKey(keys), n - 1);
    } else {
      assert o == keys;
    }
  }

  /** The four smart categories, made in `Smarts` order and added before the rest, end up in reverse. */
  lemma SmartsBefore(t: Table, made: seq<Category>)
    requires WellFormed(t) && |made| == |Smarts|
    ensures AddSmarts(t, "before", made, |made|).vals == [made[3], made[2], made[1], made[0]] + t.vals
  {
    SmartsInFront(t, made, |made|);
    assert made[..|made|] == made;
    var r := Reverse(made);
    assert r == [made[3], made[2], made[1], made[0]] by {
      assert |r| == 4 && r[0] == made[3] && r[1] == made[2] && r[2] == made[1] && r[3] == made[0];
    }
  }

  // ---------------------------------------------------------------------
  // The categories loop
  // ---------------------------------------------------------------------

  /** The state of the `categories` loop: the `categoryloop` flag and the pointer. */
  datatype Cursor = Cursor(loop: bool, pointer: nat)

  /**
   * One call of the loop over `n` values: rewind when not looping, advance
   * otherwise (staying put past the end), and keep looping while an element
   * is current.
   */
  function Next(c: Cursor, n: nat): (r: Cursor)
    ensures r.loop <==> r.pointer < n
  {
    var p := if !c.loop then 0 else if c.pointer < n then c.pointer + 1 else c.pointer;
    Cursor(p < n, p)
  }

  /** The cursor after `k` calls. */
  function Calls(c: Cursor, n: nat, k: nat): Cursor
  {
    if k == 0 then c else Next(Calls(c, n, k - 1), n)
  }

  /**
   * Started outside a loop, the `k`-th call (from 1) makes element `k - 1`
   * current for every `k <= n`, and call `n + 1` reports the end and clears
   * the flag, so the call after it starts over at the first element.
   */
  lemma {:induction false} LoopVisitsAll(p: nat, n: nat, k: nat)
    requires k <= n
    ensures k > 0 ==> Calls(Cursor(false, p), n, k) == Cursor(true, k - 1)
    ensures k == n ==> Calls(Cursor(false, p), n, n + 1) == Cursor(false, n)
    ensures k == n ==> Calls(Cursor(false, p), n, n + 2) == Calls(Cursor(false, p), n, 1)
  {
    if k > 0 {
      LoopVisitsAll(p, n, k - 1);
    }
  }

  // ---------------------------------------------------------------------
  // The catalog
  // ---------------------------------------------------------------------

  class Catalog {
    /** The category array: its keys in order and the category under each. */
    var keys: seq<int>
    var vals: seq<Category>
    /** The array's internal pointer, as a position in `keys`. */
    var pointer: nat
    var categoryloop: bool
    /** The category the loop has made current (`$Shopp->Category`), if any. */
    var selected: Option<Category>

    ghost predicate Valid()
      reads this
    {
      WellFormed(Table(keys, vals))
    }

    constructor()
      ensures Valid() && keys == [] && vals == []
      ensures pointer == 0 && !categoryloop && selected == None
    {
      keys := [];
      vals := [];
      pointer := 0;
      categoryloop := false;
      selected := None;
    }

    /** The category array as a value. */
    function Contents(): Table
      reads this
    {
      Table(keys, vals)
    }

    /**
     * `load_categories`: load the rows in order, then add the smart
     * categories when `showsmarts` is `before` or `after`.
     */
    method LoadCategories(rows: seq<CategoryRow>, showsmarts: string, made: seq<Category>)
      requires Valid()
      modifies this
      ensures Valid()
      ensures showsmarts == "before" || showsmarts == "after" ==>
        Contents() == AddSmarts(LoadRows(old(Contents()), rows, |rows|), showsmarts, made, |made|)
      ensures showsmarts != "before" && showsmarts != "after" ==> Contents() == LoadRows(old(Contents()), rows, |rows|)
      ensures pointer == if showsmarts == "before" && |made| > 0 then 0 else old(pointer)
      ensures categoryloop == old(categoryloop) && selected == old(selected)
    {
      ghost var t0 := Contents();
      var i := 0;
      while i < |rows|
        invariant 0 <= i <= |rows|
        invariant Valid() && Contents() == LoadRows(t0, rows, i)
        invariant pointer == old(pointer) && categoryloop == old(categoryloop) && selected == old(selected)
      {
        StoreRow(rows[i]);
        assert LoadRows(t0, rows, i + 1) == LoadRow(LoadRows(t0, rows, i), rows[i]);
        i := i + 1;
      }
      if showsmarts == "before" || showsmarts == "after" {
        SmartCategories(showsmarts, made);
      }
    }

    /** One pass of the loading loop: store the row's category, then flag its parent. */
    method StoreRow(category: CategoryRow)
      requires Valid()
      modifies this`keys, this`vals
      ensures Valid() && Contents() == LoadRow(old(Contents()), category)
    {
      ghost var before := Contents();
      if category.id in keys {
        vals := vals[IndexOf(keys, category.id) := Populate(category)];
      } else {
        keys := keys + [category.id];
        vals := vals + [Populate(category)];
      }
      ghost var stored := Contents();
      assert stored == Put(before, category.id, Populate(category));
      if category.total > 1 && category.parent in keys {
        var p := IndexOf(keys, category.parent);
        vals := vals[p := vals[p].(children := true)];
        assert Contents() == Put(stored, category.parent, Get(stored, category.parent).(children := true));
      }
    }

    /** `smart_categories`: each made smart category goes in front with `before`, and last otherwise. */
    method SmartCategories(mode: string, made: seq<Category>)
      requires Valid()
      modifies this
      ensures Valid() && Contents() == AddSmarts(old(Contents()), mode, made, |made|)
      ensures pointer == if mode == "before" && |made| > 0 then 0 else old(pointer)
      ensures categoryloop == old(categoryloop) && selected == old(selected)
    {
      ghost var t0 := Contents();
      var i := 0;
      while i < |made|
        invariant 0 <= i <= |made|
        invariant Valid() && Contents() == AddSmarts(t0, mode, made, i)
        invariant pointer == if mode == "before" && i > 0 then 0 else old(pointer)
        invariant categoryloop == old(categoryloop) && selected == old(selected)
      {
        var category := made[i];
        if mode == "before" {
          keys, vals := Iota(|vals| + 1), [category] + vals;
          pointer := 0;
        } else {
          PushValues(Contents(), category);
          keys, vals := keys + [NextKey(keys)], vals + [category];
        }
        i := i + 1;
      }
    }

    /**
     * The `categories` loop: returns whether a category is current, makes
     * it (or nothing) the selected category, and moves the cursor as `Next`
     * does.
     */
    method Categories() returns (more: bool)
      requires Valid()
      modifies this
      ensures Valid() && keys == old(keys) && vals == old(vals)
      ensures Cursor(categoryloop, pointer) == Next(Cursor(old(categoryloop), old(pointer)), |vals|)
      ensures more == categoryloop
      ensures selected == if more then Some(vals[pointer]) else None
    {
      if !categoryloop {
        pointer := 0;
        categoryloop := true;
      } else if pointer < |vals| {
        pointer := pointer + 1;
      }
      if pointer < |vals| {
        selected := Some(vals[pointer]);
        return true;
      } else {
        selected := None;
        categoryloop := false;
        return false;
      }
    }

    /**
     * The `category-list` tag: load the categories first when there are none,
     * then render them in order. Both forms walk the array with a
     * by-reference `foreach`, which in PHP 5 leaves the internal pointer past
     * the last element, so a `categories` loop in progress ends at its next step.
     */
    method CategoryListTag(rows: seq<CategoryRow>, showsmart: string, made: seq<Category>, opts: ListOptions)
      returns (s: string)
      requires Valid()
      modifies this
      ensures Valid()
      ensures old(vals) != [] ==> Contents() == old(Contents())
      ensures old(vals) == [] && (showsmart == "before" || showsmart == "after") ==>
        Contents() == AddSmarts(LoadRows(EmptyTable, rows, |rows|), showsmart, made, |made|)
      ensures old(vals) == [] && showsmart != "before" && showsmart != "after" ==>
        Contents() == LoadRows(EmptyTable, rows, |rows|)
      ensures s == Title(opts.title) + (if opts.dropdown then MenuText(vals, opts) else ListText(vals, opts))
      ensures pointer == |vals| && categoryloop == old(categoryloop) && selected == old(selected)
    {
      if |vals| == 0 {
        assert Contents() == EmptyTable;
        LoadCategories(rows, showsmart, made);
      }
      s := CategoryList(vals, opts);
      pointer := |vals|;
    }
  }
}
