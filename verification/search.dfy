/** `Arrays.binarySearch` exactly as the JDK loop runs it: `low` and `high`
    close in on the key, `mid` is the midpoint, `compareTo` steers, and a miss
    returns `-(insertion point + 1)`. Enum constants compare by ordinal, so the
    search is stated over the ordinals of the array's elements. The loop is
    only promised to find a present key when the array is sorted; on an unsorted
    array it still terminates, and a hit is still genuine, but it may miss. */
module Search {
  /** One pass of the search loop over the still-open window `low..high`
      (inclusive), written as a recursion so that `beats` stays a function. */
  function SearchRange(a: seq<int>, key: int, low: int, high: int): int
    requires 0 <= low <= high + 1 <= |a|
    decreases high - low + 1
  {
    if low > high then -(low + 1)
    else
      var mid := (low + high) / 2;
      var cmp := a[mid] - key;
      if cmp < 0 then SearchRange(a, key, mid + 1, high)
      else if cmp > 0 then SearchRange(a, key, low, mid - 1)
      else mid
  }

  /** Whatever the order of the array, the loop stays inside its window: a
      hit is an index holding the key, and a miss names an insertion point
      inside the window. */
  lemma {:induction false} SearchRangeBounds(a: seq<int>, key: int, low: int, high: int)
    requires 0 <= low <= high + 1 <= |a|
    ensures var r := SearchRange(a, key, low, high);
            (r >= 0 ==> low <= r <= high && a[r] == key) &&
            (r < 0 ==> low <= -r - 1 <= high + 1)
    decreases high - low + 1
  {
    if low <= high {
      var mid := (low + high) / 2;
      if a[mid] - key < 0 {
        SearchRangeBounds(a, key, mid + 1, high);
      } else if a[mid] - key > 0 {
        SearchRangeBounds(a, key, low, mid - 1);
      }
    }
  }

  /** `Arrays.binarySearch(a, key)`: the loop started on the whole array.
      On any array a hit is genuine; only a miss can be wrong. */
  function Search(a: seq<int>, key: int): (r: int)
    ensures r >= 0 ==> r < |a| && a[r] == key
    ensures r < 0 ==> -r - 1 <= |a|
  {
    SearchRangeBounds(a, key, 0, |a| - 1);
    SearchRange(a, key, 0, |a| - 1)
  }

  /** Ascending: what `Arrays.binarySearch` demands of its array. */
  predicate Sorted(a: seq<int>) {
    forall i, j :: 0 <= i < j < |a| ==> a[i] <= a[j]
  }

  /** Everything left of the window `low..high` is smaller than `key`,
      everything right of it larger. */
  predicate Window(a: seq<int>, key: int, low: int, high: int)
    requires 0 <= low <= high + 1 <= |a|
  {
    && (forall i :: 0 <= i < low ==> a[i] < key)
    && (forall i :: high < i < |a| ==> key < a[i])
  }

  /** `ip` is where `key` would be inserted: everything before it is smaller,
      everything from it on is larger. */
  predicate SplitsAt(a: seq<int>, key: int, ip: int) {
    && 0 <= ip <= |a|
    && (forall i :: 0 <= i < ip ==> a[i] < key)
    && (forall i :: ip <= i < |a| ==> key < a[i])
  }

  /** In a sorted array, an element below `key` at `mid` lets the window
      drop everything up to `mid`. */
  lemma NarrowFromLeft(a: seq<int>, key: int, low: int, high: int, mid: int)
    requires Sorted(a)
    requires 0 <= low <= mid <= high < |a|
    requires Window(a, key, low, high)
    requires a[mid] < key
    ensures Window(a, key, mid + 1, high)
  {
    assert forall i :: low <= i <= mid ==> a[i] <= a[mid];
  }

  /** In a sorted array, an element above `key` at `mid` lets the window
      drop everything from `mid` on. */
  lemma NarrowFromRight(a: seq<int>, key: int, low: int, high: int, mid: int)
    requires Sorted(a)
    requires 0 <= low <= mid <= high < |a|
    requires Window(a, key, low, high)
    requires key < a[mid]
    ensures Window(a, key, low, mid - 1)
  {
    assert forall i :: mid <= i <= high ==> a[mid] <= a[i];
  }

  /** On a sorted array the window never loses the key: everything left of it
      is smaller, everything right of it larger. So the search finds the key
      exactly when it is present. */
  lemma {:induction false} SearchRangeFinds(a: seq<int>, key: int, low: int, high: int)
    requires Sorted(a)
    requires 0 <= low <= high + 1 <= |a|
    requires Window(a, key, low, high)
    ensures SearchRange(a, key, low, high) >= 0 <==> key in a
    decreases high - low + 1
  {
    if low > high {
      assert forall i :: 0 <= i < |a| ==> a[i] != key;
    } else {
      var mid := (low + high) / 2;
      if a[mid] < key {
        NarrowFromLeft(a, key, low, high, mid);
        SearchRangeFinds(a, key, mid + 1, high);
      } else if a[mid] > key {
        NarrowFromRight(a, key, low, high, mid);
        SearchRangeFinds(a, key, low, mid - 1);
      }
    }
  }

  /** On a sorted array a miss reports the insertion point: `-(ip + 1)` where
      everything before `ip` is smaller than the key and everything from `ip`
      on is larger. */
  lemma {:induction false} SearchRangeMisses(a: seq<int>, key: int, low: int, high: int)
    requires Sorted(a)
    requires 0 <= low <= high + 1 <= |a|
    requires Window(a, key, low, high)
    ensures SearchRange(a, key, low, high) < 0 ==>
              SplitsAt(a, key, -SearchRange(a, key, low, high) - 1)
    decreases high - low + 1
  {
    if low <= high {
      var mid := (low + high) / 2;
      if a[mid] < key {
        NarrowFromLeft(a, key, low, high, mid);
        SearchRangeMisses(a, key, mid + 1, high);
      } else if a[mid] > key {
        NarrowFromRight(a, key, low, high, mid);
        SearchRangeMisses(a, key, low, mid - 1);
      }
    }
  }

  /** The property callers rely on: on a sorted array, `binarySearch(a, key) >= 0`
      is exactly membership, and a negative answer encodes where `key` would go. */
  lemma SearchSorted(a: seq<int>, key: int)
    requires Sorted(a)
    ensures Search(a, key) >= 0 <==> key in a
    ensures Search(a, key) < 0 ==> SplitsAt(a, key, -Search(a, key) - 1)
  {
    SearchRangeFinds(a, key, 0, |a| - 1);
    SearchRangeMisses(a, key, 0, |a| - 1);
  }

  /** The JDK loop itself. It computes `Search` on every array; on a sorted
      array its invariants keep the key inside the window, so a miss means the
      key is absent. */
  method BinarySearch(a: seq<int>, key: int) returns (r: int)
    ensures r == Search(a, key)
    ensures r >= 0 ==> r < |a| && a[r] == key
    ensures Sorted(a) ==> (r >= 0 <==> key in a)
  {
    var low, high := 0, |a| - 1;
    assert SearchRange(a, key, low, high) == Search(a, key);
    while low <= high
      invariant 0 <= low <= high + 1 <= |a|
      invariant SearchRange(a, key, low, high) == Search(a, key)
      invariant Sorted(a) ==> Window(a, key, low, high)
      decreases high - low
    {
      var mid := (low + high) / 2;
      var cmp := a[mid] - key;
      if cmp < 0 {
        if Sorted(a) { NarrowFromLeft(a, key, low, high, mid); }
        low := mid + 1;
      } else if cmp > 0 {
        if Sorted(a) { NarrowFromRight(a, key, low, high, mid); }
        high := mid - 1;
      } else {
        return mid;
      }
    }
    return -(low + 1);
  }

}
