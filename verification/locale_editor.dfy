/** The title-locale preference list of the exporter window: a list of locale codes shown in a
    single-selection list, edited with the UP, DEL and DOWN buttons and the "+" insertion field. */
module LocaleEditor {
  import opened Wrappers
  import opened Seqs

  /** The locales the list is filled with when the window is built, most preferred first. */
  const DefaultLocales: seq<string> := ["ja", "ja-ro", "ko", "ko-ro", "zh", "zh-hk", "zh-ro", "en"]

  /** The list and its selected index, -1 when nothing is selected. */
  datatype Editor = Editor(locales: seq<string>, selected: int)

  /** What every handler keeps: no locale twice, and the selection on an element or absent. */
  predicate Valid(e: Editor) {
    NoDup(e.locales) && -1 <= e.selected < |e.locales|
  }

  /** The list as the window starts: the default locales, nothing selected. */
  function Initial(): (e: Editor)
    ensures Valid(e) && e.selected == -1 && |e.locales| == 8
  {
    Editor(DefaultLocales, -1)
  }

  /** The index-out-of-bounds exception a list access outside the list throws. */
  datatype Failure = IndexOutOfBounds(index: int)

  // ---------------------------------------------------------------------------------------
  // Swapping two positions.

  /** `swap(i, j)` on positions inside the list: the two elements change places. */
  function Swap<T>(xs: seq<T>, i: nat, j: nat): (ys: seq<T>)
    requires i < |xs| && j < |xs|
    ensures |ys| == |xs|
  {
    xs[i := xs[j]][j := xs[i]]
  }

  /** The swapped list holds `xs[j]` at `i`, `xs[i]` at `j` and nothing else moves. */
  lemma SwapExchanges<T>(xs: seq<T>, i: nat, j: nat)
    requires i < |xs| && j < |xs|
    ensures Swap(xs, i, j)[i] == xs[j] && Swap(xs, i, j)[j] == xs[i]
    ensures forall k :: 0 <= k < |xs| && k != i && k != j ==> Swap(xs, i, j)[k] == xs[k]
  {
  }

  /** Swapping back, in either order of the indices, restores the list. */
  lemma SwapBack<T>(xs: seq<T>, i: nat, j: nat)
    requires i < |xs| && j < |xs|
    ensures Swap(Swap(xs, i, j), j, i) == xs
    ensures Swap(Swap(xs, i, j), i, j) == xs
  {
    var ys := Swap(xs, i, j);
    SwapExchanges(xs, i, j);
    SwapExchanges(ys, j, i);
    SwapExchanges(ys, i, j);
    assert forall k :: 0 <= k < |xs| ==> Swap(ys, j, i)[k] == xs[k];
    assert forall k :: 0 <= k < |xs| ==> Swap(ys, i, j)[k] == xs[k];
  }

  /** Swapping keeps the same elements. */
  lemma SwapKeepsElements<T>(xs: seq<T>, i: nat, j: nat)
    requires i < |xs| && j < |xs|
    ensures multiset(Swap(xs, i, j)) == multiset(xs)
  {
    var zs := xs[i := xs[j]];
    assert multiset(zs) == multiset(xs) - multiset{xs[i]} + multiset{xs[j]};
    assert multiset(zs[j := xs[i]]) == multiset(zs) - multiset{zs[j]} + multiset{xs[i]};
  }

  /** Swapping keeps a list free of repeats. */
  lemma SwapKeepsNoDup<T>(xs: seq<T>, i: nat, j: nat)
    requires i < |xs| && j < |xs| && NoDup(xs)
    ensures NoDup(Swap(xs, i, j))
  {
    var ys := Swap(xs, i, j);
    SwapExchanges(xs, i, j);
    forall a, b | 0 <= a < b < |ys| ensures ys[a] != ys[b] {
      var a' := if a == i then j else if a == j then i else a;
      var b' := if b == i then j else if b == j then i else b;
      assert ys[a] == xs[a'] && ys[b] == xs[b'];
    }
  }

  /** `swap` with any two indices: `elementAt(i)` and `set(j, …)` throw outside the list. */
  function SwapOrThrow<T>(xs: seq<T>, i: int, j: int): (r: Result<seq<T>, Failure>)
    ensures r.Ok? <==> 0 <= i < |xs| && 0 <= j < |xs|
    ensures r.Ok? ==> r.value == Swap(xs, i, j)
    ensures r.Err? && 0 <= i < |xs| ==> r.error == IndexOutOfBounds(j)
  {
    if !(0 <= i < |xs|) then Err(IndexOutOfBounds(i))
    else if !(0 <= j < |xs|) then Err(IndexOutOfBounds(j))
    else Ok(Swap(xs, i, j))
  }

  // ---------------------------------------------------------------------------------------
  // The buttons.

  /** UP as written: with any selection, swap it with the one before and move the selection
      up -- at the top of the list the swap reaches index -1 and throws. */
  function UpAsWritten(e: Editor): (r: Result<Editor, Failure>)
    requires Valid(e)
  {
    if e.selected >= 0 then
      match SwapOrThrow(e.locales, e.selected, e.selected - 1)
      case Ok(ys) => Ok(Editor(ys, e.selected - 1))
      case Err(f) => Err(f)
    else Ok(e)
  }

  /** UP as intended: only a selection below the top moves up, together with its element. */
  function Up(e: Editor): (r: Editor)
    requires Valid(e)
    ensures Valid(r)
    ensures multiset(r.locales) == multiset(e.locales)
    ensures e.selected >= 1 ==> r.selected == e.selected - 1 && r.locales[r.selected] == e.locales[e.selected]
    ensures e.selected >= 1 ==> r.locales[e.selected] == e.locales[e.selected - 1]
    ensures e.selected >= 1 ==> forall k :: 0 <= k < |e.locales| && k != e.selected && k != e.selected - 1 ==> r.locales[k] == e.locales[k]
    ensures e.selected < 1 ==> r == e
  {
    if e.selected >= 1 then
      SwapKeepsElements(e.locales, e.selected, e.selected - 1);
      SwapKeepsNoDup(e.locales, e.selected, e.selected - 1);
      SwapExchanges(e.locales, e.selected, e.selected - 1);
      Editor(Swap(e.locales, e.selected, e.selected - 1), e.selected - 1)
    else e
  }

  /** Pressing UP on the first locale throws instead of leaving the list alone; everywhere
      else the handler does what was intended. */
  lemma UpAtTopThrows(e: Editor)
    requires Valid(e)
    ensures e.selected == 0 ==> UpAsWritten(e) == Err(IndexOutOfBounds(-1)) && Up(e) == e
    ensures e.selected != 0 ==> UpAsWritten(e) == Ok(Up(e))
  {
  }

  /** DOWN: a selection above the last element swaps with the next one and moves down. */
  function Down(e: Editor): (r: Editor)
    requires Valid(e)
    ensures Valid(r)
    ensures multiset(r.locales) == multiset(e.locales)
    ensures 0 <= e.selected < |e.locales| - 1 ==> r.selected == e.selected + 1 && r.locales[r.selected] == e.locales[e.selected]
    ensures 0 <= e.selected < |e.locales| - 1 ==> r.locales[e.selected] == e.locales[e.selected + 1]
    ensures 0 <= e.selected < |e.locales| - 1 ==> forall k :: 0 <= k < |e.locales| && k != e.selected && k != e.selected + 1 ==> r.locales[k] == e.locales[k]
    ensures !(0 <= e.selected < |e.locales| - 1) ==> r == e
  {
    if e.selected != |e.locales| - 1 && e.selected >= 0 then
      SwapKeepsElements(e.locales, e.selected, e.selected + 1);
      SwapKeepsNoDup(e.locales, e.selected, e.selected + 1);
      SwapExchanges(e.locales, e.selected, e.selected + 1);
      Editor(Swap(e.locales, e.selected, e.selected + 1), e.selected + 1)
    else e
  }

  lemma UpSwaps(e: Editor)
    requires Valid(e) && e.selected >= 1
    ensures Up(e) == Editor(Swap(e.locales, e.selected, e.selected - 1), e.selected - 1)
  {
  }

  lemma DownSwaps(e: Editor)
    requires Valid(e) && 0 <= e.selected < |e.locales| - 1
    ensures Down(e) == Editor(Swap(e.locales, e.selected, e.selected + 1), e.selected + 1)
  {
  }

  /** DOWN undoes UP whenever UP moved something. */
  lemma DownUndoesUp(e: Editor)
    requires Valid(e) && e.selected >= 1
    ensures Down(Up(e)) == e
  {
    var n := e.selected;
    var u := Up(e);
    UpSwaps(e);
    DownSwaps(u);
    SwapBack(e.locales, n, n - 1);
    assert Down(u).locales == e.locales;
  }

  /** UP undoes DOWN whenever DOWN moved something. */
  lemma UpUndoesDown(e: Editor)
    requires Valid(e) && 0 <= e.selected < |e.locales| - 1
    ensures Up(Down(e)) == e
  {
    var n := e.selected;
    var d := Down(e);
    DownSwaps(e);
    UpSwaps(d);
    SwapBack(e.locales, n, n + 1);
    assert Up(d).locales == e.locales;
  }

  /** The list without its element at `i`. */
  function RemoveAt<T>(xs: seq<T>, i: nat): (ys: seq<T>)
    requires i < |xs|
    ensures |ys| == |xs| - 1
    ensures multiset(ys) + multiset{xs[i]} == multiset(xs)
  {
    assert xs == xs[..i] + [xs[i]] + xs[i + 1..];
    xs[..i] + xs[i + 1..]
  }

  /** Removing the element at `i` from a list without repeats removes it entirely. */
  lemma RemoveAtNoDup<T>(xs: seq<T>, i: nat)
    requires i < |xs| && NoDup(xs)
    ensures NoDup(RemoveAt(xs, i)) && xs[i] !in RemoveAt(xs, i)
  {
    var ys := RemoveAt(xs, i);
    forall a | 0 <= a < |ys| ensures ys[a] == xs[if a < i then a else a + 1] {
    }
  }

  /** DEL: the selected locale leaves the list; the selection stays at its index, or moves to
      the new last element, and is cleared when the list becomes empty. */
  function Delete(e: Editor): (r: Editor)
    requires Valid(e)
    ensures Valid(r)
    ensures e.selected >= 0 ==> r.locales == RemoveAt(e.locales, e.selected) && e.locales[e.selected] !in r.locales
    ensures e.selected >= 0 ==> r.selected == (if r.locales == [] then -1 else Min(e.selected, |r.locales| - 1))
    ensures e.selected < 0 ==> r == e
  {
    if e.selected >= 0 then
      var rest := RemoveAt(e.locales, e.selected);
      RemoveAtNoDup(e.locales, e.selected);
      if |rest| > 0 then Editor(rest, Min(e.selected, |rest| - 1)) else Editor(rest, -1)
    else e
  }

  function Min(a: int, b: int): int {
    if a < b then a else b
  }

  /** The list with `x` inserted before position `i`. */
  function InsertAt<T>(xs: seq<T>, i: nat, x: T): (ys: seq<T>)
    requires i <= |xs|
    ensures |ys| == |xs| + 1 && ys[i] == x
    ensures multiset(ys) == multiset(xs) + multiset{x}
  {
    assert xs == xs[..i] + xs[i..];
    xs[..i] + [x] + xs[i..]
  }

  /** Taking out what was inserted gives the list back. */
  lemma RemoveInserted<T>(xs: seq<T>, i: nat, x: T)
    requires i <= |xs|
    ensures RemoveAt(InsertAt(xs, i, x), i) == xs
  {
    var ys := InsertAt(xs, i, x);
    assert ys[..i] == xs[..i];
    assert ys[i + 1..] == xs[i..];
  }

  /** Inserting an element the list lacks keeps it free of repeats. */
  lemma InsertAtNoDup<T>(xs: seq<T>, i: nat, x: T)
    requires i <= |xs| && NoDup(xs) && x !in xs
    ensures NoDup(InsertAt(xs, i, x))
  {
    var ys := InsertAt(xs, i, x);
    forall a | 0 <= a < |ys| && a != i ensures ys[a] == xs[if a < i then a else a - 1] {
    }
  }

  /** Where "+" inserts: before the selected locale, or at the top when none is selected. */
  function InsertionPoint(e: Editor): nat
    requires Valid(e)
  {
    if e.selected < 0 then 0 else e.selected
  }

  /** "+": a non-empty locale that is not yet listed goes in before the selection (or at the
      top); the selection stays on the locale it was on. */
  function Insert(e: Editor, text: string): (r: Editor)
    requires Valid(e)
    ensures Valid(r)
    ensures r != e <==> text != "" && text !in e.locales
    ensures text != "" ==> text in r.locales
    ensures r != e ==> r.locales == InsertAt(e.locales, InsertionPoint(e), text)
    ensures e.selected >= 0 ==> 0 <= r.selected && r.locales[r.selected] == e.locales[e.selected]
    ensures e.selected < 0 ==> r.selected == -1
  {
    if text != "" && text !in e.locales then
      var i := InsertionPoint(e);
      var ys := InsertAt(e.locales, i, text);
      InsertAtNoDup(e.locales, i, text);
      assert ys[if e.selected < 0 then 0 else e.selected + 1] == (if e.selected < 0 then text else e.locales[e.selected]);
      Editor(ys, if e.selected < 0 then -1 else e.selected + 1)
    else e
  }

  /** An inserted locale is taken out again by removing it where it went in. */
  lemma InsertThenRemove(e: Editor, text: string)
    requires Valid(e) && text != "" && text !in e.locales
    ensures RemoveAt(Insert(e, text).locales, InsertionPoint(e)) == e.locales
  {
    RemoveInserted(e.locales, InsertionPoint(e), text);
  }
}
