/** Sort keys of the account selector: numbers compared in turn, then the account id. */
module LexOrder {
  datatype Key = Key(nums: seq<real>, id: string)

  predicate StringLess(a: string, b: string) {
    if a == "" || b == "" then a == "" && b != ""
    else a[0] < b[0] || (a[0] == b[0] && StringLess(a[1..], b[1..]))
  }

  predicate Less(a: Key, b: Key)
    decreases |a.nums|
  {
    if a.nums == [] || b.nums == [] then b.nums != [] || (a.nums == [] && StringLess(a.id, b.id))
    else a.nums[0] < b.nums[0] || (a.nums[0] == b.nums[0] && Less(Key(a.nums[1..], a.id), Key(b.nums[1..], b.id)))
  }

  lemma {:induction false} StringLessTransitive(a: string, b: string, c: string)
    requires StringLess(a, b) && StringLess(b, c)
    ensures StringLess(a, c)
  {
    if a != "" && a[0] == b[0] && b[0] == c[0] {
      StringLessTransitive(a[1..], b[1..], c[1..]);
    }
  }

  lemma {:induction false} StringLessTotal(a: string, b: string)
    ensures a == b || StringLess(a, b) || StringLess(b, a)
    ensures !(StringLess(a, b) && StringLess(b, a))
    ensures !StringLess(a, a)
  {
    if a != "" && b != "" && a[0] == b[0] {
      StringLessTotal(a[1..], b[1..]);
      assert a == [a[0]] + a[1..] && b == [b[0]] + b[1..];
    }
    if a != "" {
      StringLessIrreflexive(a[1..]);
    }
  }

  lemma {:induction false} StringLessIrreflexive(a: string)
    ensures !StringLess(a, a)
  {
    if a != "" {
      StringLessIrreflexive(a[1..]);
    }
  }

  lemma {:induction false} LessTransitive(a: Key, b: Key, c: Key)
    requires Less(a, b) && Less(b, c)
    ensures Less(a, c)
    decreases |a.nums|
  {
    if a.nums == [] || b.nums == [] || c.nums == [] {
      if a.nums == [] && b.nums == [] && c.nums == [] {
        StringLessTransitive(a.id, b.id, c.id);
      }
    } else if a.nums[0] == b.nums[0] && b.nums[0] == c.nums[0] {
      LessTransitive(Key(a.nums[1..], a.id), Key(b.nums[1..], b.id), Key(c.nums[1..], c.id));
    }
  }

  lemma {:induction false} LessTotal(a: Key, b: Key)
    ensures a == b || Less(a, b) || Less(b, a)
    ensures !(Less(a, b) && Less(b, a))
    decreases |a.nums|
  {
    if a.nums == [] || b.nums == [] {
      StringLessTotal(a.id, b.id);
    } else if a.nums[0] == b.nums[0] {
      LessTotal(Key(a.nums[1..], a.id), Key(b.nums[1..], b.id));
      assert a.nums == [a.nums[0]] + a.nums[1..] && b.nums == [b.nums[0]] + b.nums[1..];
    }
  }

  /** `min` over a list by key: the first of the smallest. */
  function FirstMin(keys: seq<Key>): (m: nat)
    requires keys != []
    ensures m < |keys|
  {
    if |keys| == 1 then 0
    else
      var m := FirstMin(keys[..|keys| - 1]);
      if Less(keys[|keys| - 1], keys[m]) then |keys| - 1 else m
  }

  lemma {:induction false} FirstMinIsLeast(keys: seq<Key>)
    requires keys != []
    ensures forall i :: 0 <= i < |keys| ==> !Less(keys[i], keys[FirstMin(keys)])
    ensures forall i :: 0 <= i < FirstMin(keys) ==> Less(keys[FirstMin(keys)], keys[i])
  {
    var n := |keys| - 1;
    LessTotal(keys[n], keys[n]);
    if n > 0 {
      var init := keys[..n];
      FirstMinIsLeast(init);
      var m := FirstMin(init);
      LessTotal(keys[n], keys[m]);
      if Less(keys[n], keys[m]) {
        forall i | 0 <= i < n ensures Less(keys[n], keys[i]) && !Less(keys[i], keys[n]) {
          LessTotal(init[i], keys[m]);
          if init[i] != keys[m] {
            LessTransitive(keys[n], keys[m], init[i]);
          }
          LessTotal(keys[i], keys[n]);
        }
      }
    }
  }

  // ---- What the orders mean ----

  /** Smaller at the first place where they differ. */
  ghost predicate SmallerFirst(x: seq<real>, y: seq<real>) {
    exists i :: 0 <= i < |x| && i < |y| && x[..i] == y[..i] && x[i] < y[i]
  }

  /** Smaller at the first place where they differ, or the beginning of the other. */
  ghost predicate Alphabetical(a: string, b: string) {
    (|a| < |b| && a == b[..|a|]) || exists i :: 0 <= i < |a| && i < |b| && a[..i] == b[..i] && a[i] < b[i]
  }

  lemma {:induction false} StringLessMeaning(a: string, b: string)
    ensures StringLess(a, b) <==> Alphabetical(a, b)
  {
    if a != "" && b != "" {
      assert a == [a[0]] + a[1..] && b == [b[0]] + b[1..];
      StringLessMeaning(a[1..], b[1..]);
      if a[0] < b[0] {
        assert a[..0] == b[..0];
      } else if Alphabetical(a, b) {
        AlphabeticalTail(a, b);
      } else if a[0] == b[0] && Alphabetical(a[1..], b[1..]) {
        AlphabeticalCons(a[0], a[1..], b[1..]);
      }
    }
  }

  lemma AlphabeticalTail(a: string, b: string)
    requires a != "" && b != "" && !(a[0] < b[0]) && Alphabetical(a, b)
    ensures a[0] == b[0] && Alphabetical(a[1..], b[1..])
  {
    if |a| < |b| && a == b[..|a|] {
      assert a[0] == b[..|a|][0];
      assert a[1..] == b[1..][..|a| - 1];
    } else {
      var i :| 0 <= i < |a| && i < |b| && a[..i] == b[..i] && a[i] < b[i];
      assert i > 0;
      assert a[0] == a[..i][0] && b[0] == b[..i][0];
      assert a[1..][..i - 1] == a[..i][1..] && b[1..][..i - 1] == b[..i][1..];
      assert a[1..][i - 1] == a[i] && b[1..][i - 1] == b[i];
    }
  }

  lemma AlphabeticalCons(c: char, a: string, b: string)
    requires Alphabetical(a, b)
    ensures Alphabetical([c] + a, [c] + b)
  {
    var x, y := [c] + a, [c] + b;
    if |a| < |b| && a == b[..|a|] {
      assert x == y[..|x|];
    } else {
      var i :| 0 <= i < |a| && i < |b| && a[..i] == b[..i] && a[i] < b[i];
      assert x[..i + 1] == [c] + a[..i] && y[..i + 1] == [c] + b[..i];
      assert x[i + 1] == a[i] && y[i + 1] == b[i];
    }
  }

  /** Keys of one kind are ordered by their numbers, then by id. */
  lemma {:induction false} LessMeaning(x: Key, y: Key)
    requires |x.nums| == |y.nums|
    ensures Less(x, y) <==> SmallerFirst(x.nums, y.nums) || (x.nums == y.nums && Alphabetical(x.id, y.id))
    decreases |x.nums|
  {
    var a, b := x.nums, y.nums;
    if a == [] {
      StringLessMeaning(x.id, y.id);
    } else {
      assert a == [a[0]] + a[1..] && b == [b[0]] + b[1..];
      LessMeaning(Key(a[1..], x.id), Key(b[1..], y.id));
      if a[0] < b[0] {
        assert a[..0] == b[..0];
      } else if SmallerFirst(a, b) {
        SmallerTail(a, b);
      } else if a[0] == b[0] && SmallerFirst(a[1..], b[1..]) {
        SmallerCons(a[0], a[1..], b[1..]);
      }
    }
  }

  lemma SmallerTail(a: seq<real>, b: seq<real>)
    requires a != [] && b != [] && !(a[0] < b[0]) && SmallerFirst(a, b)
    ensures a[0] == b[0] && SmallerFirst(a[1..], b[1..])
  {
    var i :| 0 <= i < |a| && i < |b| && a[..i] == b[..i] && a[i] < b[i];
    assert i > 0;
    assert a[0] == a[..i][0] && b[0] == b[..i][0];
    assert a[1..][..i - 1] == a[..i][1..] && b[1..][..i - 1] == b[..i][1..];
    assert a[1..][i - 1] == a[i] && b[1..][i - 1] == b[i];
  }

  lemma SmallerCons(c: real, a: seq<real>, b: seq<real>)
    requires SmallerFirst(a, b)
    ensures SmallerFirst([c] + a, [c] + b)
  {
    var x, y := [c] + a, [c] + b;
    var i :| 0 <= i < |a| && i < |b| && a[..i] == b[..i] && a[i] < b[i];
    assert x[..i + 1] == [c] + a[..i] && y[..i + 1] == [c] + b[..i];
    assert x[i + 1] == a[i] && y[i + 1] == b[i];
  }
}
