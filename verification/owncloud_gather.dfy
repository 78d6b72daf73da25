/**
 * The ownCloud page readers (owncloud_user/gather.py) as pure functions over the file list
 * rows a page shows: permission flags, the row filter behind `get_data`, its split into
 * directories and files, and the users a file can still be shared with.
 */
module OwncloudGather {
  import opened Wrappers

  // ---------------------------------------------------------------- permissions

  /** The `OwncloudPermissions` flag values. */
  const Read: nat := 1
  const Update: nat := 2
  const Create: nat := 4
  const Delete: nat := 8
  const Share: nat := 16
  const All: nat := 31

  /** A member (or combination) of the permission flags. */
  type Permission = p: nat | p < 32

  /** Bit `k` of `n`. */
  function Bit(n: nat, k: nat): bool
  {
    if k == 0 then n % 2 == 1 else Bit(n / 2, k - 1)
  }

  /** `p in OwncloudPermissions(c)`, i.e. `c & p == p`, computed bit by bit from the low end. */
  function Covers(c: nat, p: nat): bool
    decreases p
  {
    p == 0 || ((p % 2 == 1 ==> c % 2 == 1) && Covers(c / 2, p / 2))
  }

  /** `Covers` holds exactly when every bit set in `p` is set in `c`. */
  lemma CoversIffBits(c: nat, p: nat)
    ensures Covers(c, p) <==> forall k: nat :: Bit(p, k) ==> Bit(c, k)
  {
    if Covers(c, p) {
      forall k: nat | Bit(p, k) ensures Bit(c, k) {
        CoveredBit(c, p, k);
      }
    } else {
      var k := UncoveredBit(c, p);
    }
  }

  /** A covered value has every bit of the covering one. */
  lemma {:induction false} CoveredBit(c: nat, p: nat, k: nat)
    requires Covers(c, p) && Bit(p, k)
    ensures Bit(c, k)
    decreases k
  {
    if p == 0 {
      ZeroBit(k);
    } else if k > 0 {
      CoveredBit(c / 2, p / 2, k - 1);
    }
  }

  /** A value that is not covered has a bit the other one lacks. */
  lemma {:induction false} UncoveredBit(c: nat, p: nat) returns (k: nat)
    requires !Covers(c, p)
    ensures Bit(p, k) && !Bit(c, k)
    decreases p
  {
    if p % 2 == 1 && c % 2 != 1 {
      k := 0;
    } else {
      var j := UncoveredBit(c / 2, p / 2);
      k := j + 1;
    }
  }

  /** No bit of 0 is set. */
  lemma {:induction false} ZeroBit(k: nat)
    ensures !Bit(0, k)
  {
    if k > 0 {
      ZeroBit(k - 1);
    }
  }

  /** The all-ones value below `2^n` covers every value below `2^n`. */
  lemma {:induction false} OnesCover(n: nat, ones: nat, p: nat)
    requires ones + 1 == Pow2(n) && p < Pow2(n)
    ensures Covers(ones, p)
    decreases n
  {
    if n > 0 && p > 0 {
      assert ones % 2 == 1;
      OnesCover(n - 1, ones / 2, p / 2);
    }
  }

  function Pow2(n: nat): nat
  {
    if n == 0 then 1 else 2 * Pow2(n - 1)
  }

  /** `ALL` grants every permission, so its special case in `is_permissions` is subsumed by the bit test. */
  lemma AllSubsumed(p: Permission)
    ensures Covers(All, p)
  {
    assert Pow2(5) == 32;
    OnesCover(5, All, p);
  }

  /** The only bit of `2^k` is bit `k`. */
  lemma {:induction false} BitOfPow2(k: nat, j: nat)
    ensures Bit(Pow2(k), j) <==> j == k
    decreases k
  {
    if k == 0 {
      if j > 0 {
        ZeroBit(j - 1);
      }
    } else if j == 0 {
      assert Pow2(k) % 2 == 0;
    } else {
      assert Pow2(k) / 2 == Pow2(k - 1);
      BitOfPow2(k - 1, j - 1);
    }
  }

  /** Checking a single flag `2^k` is testing bit `k` of the row's permissions. */
  lemma {:induction false} SingleFlag(k: nat, c: nat)
    requires Pow2(k) < 32
    ensures IsPermissions(Pow2(k), Some(c)) <==> Bit(c, k)
  {
    forall j: nat ensures Bit(Pow2(k), j) <==> j == k {
      BitOfPow2(k, j);
    }
  }

  /** READ is bit 0 and DELETE is bit 3. */
  lemma ReadDeleteFlags(c: nat)
    ensures IsPermissions(Read, Some(c)) <==> Bit(c, 0)
    ensures IsPermissions(Delete, Some(c)) <==> Bit(c, 3)
  {
    assert Pow2(0) == Read;
    assert Pow2(3) == Delete;
    SingleFlag(0, c);
    SingleFlag(3, c);
  }

  /**
   * `is_permissions`: no permission value grants nothing; otherwise the value grants `p`
   * iff every flag of `p` is set in it.
   */
  function IsPermissions(p: Permission, check: Option<nat>): (r: bool)
    ensures check.None? ==> !r
    ensures check.Some? ==> (r <==> forall k: nat :: Bit(p, k) ==> Bit(check.value, k))
  {
    if check.Some? then
      AllSubsumed(p);
      CoversIffBits(check.value, p);
      check.value == All || Covers(check.value, p)
    else false
  }

  // ---------------------------------------------------------------- rows and get_data

  /** The attributes of a file list row (`tr`) the readers look at. */
  datatype Row = Row(
    shareState: Option<string>,
    dataType: Option<string>,
    favorite: Option<string>,
    permissions: nat,
    path: string)

  /** The `condition` suffix `get_data` appends to its XPath filter. */
  function Condition(dataType: Option<string>, exclude: bool): (c: string)
    ensures (dataType.None? || dataType.value == "") <==> c == ""
    ensures c != "" ==> |c| > 5 && c[..5] == " and "
  {
    if dataType.None? || dataType.value == "" then ""
    else
      var test := "@data-type='" + dataType.value + "'";
      " and " + (if exclude then "not(" + test + ")" else test)
  }

  /** Different type filters never produce the same condition string. */
  lemma ConditionInjective(t1: string, e1: bool, t2: string, e2: bool)
    requires t1 != "" && t2 != ""
    requires Condition(Some(t1), e1) == Condition(Some(t2), e2)
    ensures t1 == t2 && e1 == e2
  {
    var c := Condition(Some(t1), e1);
    ConditionShape(t1, e1);
    ConditionShape(t2, e2);
    assert c[5] == (if e1 then 'n' else '@');
    assert c[5] == (if e2 then 'n' else '@');
  }

  /** Where the type name sits inside a non-empty condition. */
  lemma {:induction false} ConditionShape(t: string, exclude: bool)
    requires t != ""
    ensures var c := Condition(Some(t), exclude);
            var start := if exclude then 21 else 17;
            var stop := |c| - (if exclude then 2 else 1);
            start <= stop <= |c| && c[start..stop] == t && c[5] == (if exclude then 'n' else '@')
  {
    var test := "@data-type='" + t + "'";
    assert |test| == |t| + 13;
    if exclude {
      var c := " and " + ("not(" + test + ")");
      assert c[21..|c| - 2] == t;
    } else {
      var c := " and " + test;
      assert c[17..|c| - 1] == t;
    }
  }

  /** The XPath base filter: rows that are not pending shares. */
  predicate Accepted(r: Row)
  {
    r.shareState == Some("0") || r.shareState.None?
  }

  /** The XPath condition: no filter without a type, else the type must (or must not) match. */
  predicate TypeMatches(r: Row, dataType: Option<string>, exclude: bool)
  {
    dataType.None? || dataType.value == "" || ((r.dataType == Some(dataType.value)) != exclude)
  }

  /** The permission filter applied after the XPath query. */
  predicate PermitsRow(r: Row, permissions: Option<Permission>)
  {
    permissions.None? || IsPermissions(permissions.value, Some(r.permissions))
  }

  /** The complete `get_data` row predicate. */
  predicate Selected(r: Row, dataType: Option<string>, exclude: bool, permissions: Option<Permission>)
  {
    Accepted(r) && TypeMatches(r, dataType, exclude) && PermitsRow(r, permissions)
  }

  /** `get_data`: the rows passing the XPath and permission filters, in page order. */
  function GetData(rows: seq<Row>, dataType: Option<string>, exclude: bool, permissions: Option<Permission>): (r: seq<Row>)
    ensures forall x :: x in r <==> x in rows && Selected(x, dataType, exclude, permissions)
    ensures |r| <= |rows|
  {
    if |rows| == 0 then []
    else
      var rest := GetData(rows[1..], dataType, exclude, permissions);
      assert forall x :: x in rows <==> x == rows[0] || x in rows[1..] by {
        assert rows == [rows[0]] + rows[1..];
      }
      if Selected(rows[0], dataType, exclude, permissions) then [rows[0]] + rest else rest
  }

  /** Filtering distributes over concatenation, so `get_data` keeps the page order. */
  lemma {:induction false} GetDataConcat(a: seq<Row>, b: seq<Row>, dataType: Option<string>, exclude: bool, permissions: Option<Permission>)
    ensures GetData(a + b, dataType, exclude, permissions)
            == GetData(a, dataType, exclude, permissions) + GetData(b, dataType, exclude, permissions)
    decreases |a|
  {
    if |a| > 0 {
      assert (a + b)[1..] == a[1..] + b;
      GetDataConcat(a[1..], b, dataType, exclude, permissions);
    } else {
      assert a + b == b;
    }
  }

  /** `get_dirs`: directory rows. */
  function GetDirs(rows: seq<Row>, permissions: Option<Permission>): seq<Row>
  {
    GetData(rows, Some("dir"), false, permissions)
  }

  /** `get_files`: every row whose type is not directory. */
  function GetFiles(rows: seq<Row>, permissions: Option<Permission>): seq<Row>
  {
    GetData(rows, Some("dir"), true, permissions)
  }

  /** `get_dirs` and `get_files` split the unfiltered `get_data` rows between them, with nothing lost or shared. */
  lemma {:induction false} DirsFilesPartition(rows: seq<Row>, permissions: Option<Permission>)
    ensures |GetDirs(rows, permissions)| + |GetFiles(rows, permissions)| == |GetData(rows, None, false, permissions)|
    ensures forall x :: x in GetData(rows, None, false, permissions) <==>
                          x in GetDirs(rows, permissions) || x in GetFiles(rows, permissions)
    ensures forall x :: !(x in GetDirs(rows, permissions) && x in GetFiles(rows, permissions))
    decreases |rows|
  {
    if |rows| > 0 {
      DirsFilesPartition(rows[1..], permissions);
    }
  }

  // ---------------------------------------------------------------- sharing and scrolling

  /**
   * `get_sharable_users`: the configured users the item is not yet shared with. The source
   * builds a new dictionary (its input is left alone) and renormalises the remaining weights
   * with an engine helper; only the set of remaining users is modelled.
   */
  function SharableUsers(users: map<string, real>, shared: seq<string>): (r: set<string>)
    ensures forall u :: u in r <==> u in users && u !in shared
  {
    set u | u in users && u !in shared
  }

  /** Nobody is left to share with exactly when every configured user already has the item. */
  lemma SharableEmptyIff(users: map<string, real>, shared: seq<string>)
    ensures |SharableUsers(users, shared)| == 0 <==> forall u :: u in users ==> u in shared
  {
    var r := SharableUsers(users, shared);
    if |r| == 0 {
      assert forall u :: u in users ==> u in shared;
    } else {
      var u :| u in r;
      assert u in users && u !in shared;
    }
  }

  /** The room left to scroll: maximum scroll offset minus the current one. */
  function ScrollSpace(maxScroll: real, scrollTop: real): (r: real)
    ensures r + scrollTop == maxScroll
  {
    maxScroll - scrollTop
  }
}
