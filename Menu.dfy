/**
  The cocktail carousel of the menu section (components/Menu.jsx).

  The component keeps one integer of state, the index of the cocktail on
  show. A tab jumps to its own index, the two arrows step to the previous or
  the next cocktail, and every index is brought back into range with the
  single expression `(x + N) % N`, where `%` is JavaScript's truncating
  remainder and N is the number of cocktails.
 */
module Menu {
  import opened JsArith

  datatype Option<T> = None | Some(value: T)

  /**
    `(x + n) % n` with JavaScript's `%`: the index that goToSlide stores and
    that getCocktailAt reads. It is the cyclic index `x % n` exactly when it
    lies in range, which is so for every `x >= -n` and, below that, only for
    multiples of `n` (where JavaScript yields -0, which reads as index 0).
   */
  function Normalize(x: int, n: int): (r: int)
    requires 0 < n
    ensures (0 <= r < n) <==> (-n <= x || x % n == 0)
    ensures 0 <= r < n ==> r == x % n
    ensures 0 <= x < n ==> r == x
    ensures -n <= x < 0 ==> r == x + n
  {
    var r := JsRem(x + n, n);
    ModAddMultiple(x, 1, n);
    assert (x + n) % n == x % n;
    if 0 <= x + n then
      ModUnique(x + n, r, n);
      if 0 <= x < n then
        ModUnique(x, x, n);
        r
      else if x < 0 then
        MultipleMod(-1, n);
        ModUnique(x, x + n, n);
        r
      else
        r
    else if r == 0 then
      ModUnique(x + n, 0, n);
      r
    else
      NonZeroRemainder(x + n, r, n);
      r
  }

  /** Reading `s[i]` in JavaScript: `undefined` (None) outside the list. */
  function ElementAt<T>(s: seq<T>, i: int): Option<T>
  {
    if 0 <= i < |s| then Some(s[i]) else None
  }

  /** The three ways the user can change the slide. */
  datatype Click =
    | Tab(index: int)   // the tab of cocktail `index`
    | LeftArrow         // the button showing the previous cocktail
    | RightArrow        // the button showing the next cocktail

  /** The argument each click handler passes to goToSlide. */
  function Target(current: int, click: Click): int
  {
    match click
    case Tab(i) => i
    case LeftArrow => current - 1
    case RightArrow => current + 1
  }

  /** Tabs exist only for the indices of the list. */
  predicate TabInRange(click: Click, n: int)
  {
    click.Tab? ==> 0 <= click.index < n
  }

  /** The index after one click, from index `current` over `n` cocktails. */
  function Step(current: int, n: int, click: Click): (next: int)
    requires 0 < n
    ensures 0 <= current < n && TabInRange(click, n) ==> 0 <= next < n
    ensures click.Tab? && 0 <= click.index < n ==> next == click.index
    ensures click == LeftArrow && 0 <= current < n ==>
              next == if current == 0 then n - 1 else current - 1
    ensures click == RightArrow && 0 <= current < n ==>
              next == if current == n - 1 then 0 else current + 1
  {
    Normalize(Target(current, click), n)
  }

  /** The index after a sequence of clicks. */
  function Run(current: int, n: int, clicks: seq<Click>): int
    requires 0 < n
    decreases |clicks|
  {
    if clicks == [] then current else Run(Step(current, n, clicks[0]), n, clicks[1..])
  }

  /**
    Every state reachable by clicks from a valid index (in particular from
    the index 0 the component mounts with) is a valid index.
   */
  lemma {:induction false} ReachableIndexInRange(current: int, n: int, clicks: seq<Click>)
    requires 0 < n && 0 <= current < n
    requires forall k :: 0 <= k < |clicks| ==> TabInRange(clicks[k], n)
    ensures 0 <= Run(current, n, clicks) < n
    decreases |clicks|
  {
    if clicks != [] {
      ReachableIndexInRange(Step(current, n, clicks[0]), n, clicks[1..]);
    }
  }

  /** The net number of steps the arrows in `clicks` move. */
  function Displacement(clicks: seq<Click>): int
  {
    if clicks == [] then 0
    else
      (match clicks[0]
       case Tab(_) => 0
       case LeftArrow => -1
       case RightArrow => 1) + Displacement(clicks[1..])
  }

  /** Arrow clicks alone move the index cyclically by their net displacement. */
  lemma {:induction false} ArrowsMoveCyclically(current: int, n: int, clicks: seq<Click>)
    requires 0 < n && 0 <= current < n
    requires forall k :: 0 <= k < |clicks| ==> !clicks[k].Tab?
    ensures Run(current, n, clicks) == (current + Displacement(clicks)) % n
    decreases |clicks|
  {
    if clicks != [] {
      var rest := clicks[1..];
      var d := if clicks[0] == LeftArrow then -1 else 1;
      assert Displacement(clicks) == d + Displacement(rest);
      var next := Normalize(current + d, n);
      assert Step(current, n, clicks[0]) == next;
      assert next == (current + d) % n;
      assert Run(current, n, clicks) == Run(next, n, rest);
      ArrowsMoveCyclically(next, n, rest);
      ModAddLeft(current + d, Displacement(rest), n);
    } else {
      ModUnique(current, current, n);
    }
  }

  /** A right arrow then a left arrow, or the reverse, restores the index. */
  lemma ArrowsCancel(current: int, n: int)
    requires 0 < n && 0 <= current < n
    ensures Run(current, n, [RightArrow, LeftArrow]) == current
    ensures Run(current, n, [LeftArrow, RightArrow]) == current
  {
  }

  /** The `isActive` test of each tab, in tab order. */
  function ActiveFlags(n: nat, current: int): seq<bool>
  {
    seq(n, i => i == current)
  }

  /** How many of the flags are set. */
  function CountActive(flags: seq<bool>): nat
  {
    if flags == [] then 0
    else CountActive(flags[..|flags| - 1]) + (if flags[|flags| - 1] then 1 else 0)
  }

  /** Exactly one tab is active when the index is valid, and none otherwise. */
  lemma {:induction false} ExactlyOneTabActive(n: nat, current: int)
    ensures CountActive(ActiveFlags(n, current)) == if 0 <= current < n then 1 else 0
  {
    if n > 0 {
      ExactlyOneTabActive(n - 1, current);
      assert ActiveFlags(n, current)[..n - 1] == ActiveFlags(n - 1, current);
    }
  }

  /**
    The state of one mounted Menu component. `items` is the cocktail list
    (fixed for the session) and `currentIndex` the React state set through
    setCurrentIndex, modelled as a field that is assigned directly.
   */
  class Carousel<Item> {
    const items: seq<Item>
    var currentIndex: int

    /** The index names a cocktail. */
    ghost predicate Valid()
      reads this
    {
      0 <= currentIndex < |items|
    }

    /** Mounting: the state starts at index 0. */
    constructor (allCocktails: seq<Item>)
      requires |allCocktails| > 0
      ensures items == allCocktails && currentIndex == 0
      ensures Valid()
    {
      items := allCocktails;
      currentIndex := 0;
    }

    /** goToSlide: store `(index + N) % N`. */
    method GoToSlide(index: int)
      requires 0 < |items|
      modifies this`currentIndex
      ensures currentIndex == Normalize(index, |items|)
      ensures Valid() <==> (-|items| <= index || index % |items| == 0)
      ensures Valid() ==> currentIndex == index % |items|
      ensures 0 <= index < |items| ==> currentIndex == index
    {
      currentIndex := Normalize(index, |items|);
    }

    /**
      getCocktailAt: the cocktail `offset` places from the current one. When
      it is defined it is the cyclic neighbour; it is undefined only when the
      JavaScript remainder comes out negative.
     */
    function CocktailAt(offset: int): (r: Option<Item>)
      reads this
      requires 0 < |items|
      ensures r.Some? <==>
                (-|items| <= currentIndex + offset || (currentIndex + offset) % |items| == 0)
      ensures r.Some? ==> r.value == items[(currentIndex + offset) % |items|]
    {
      ElementAt(items, Normalize(currentIndex + offset, |items|))
    }

    /** currentCocktail = getCocktailAt(0). */
    function CurrentCocktail(): (r: Item)
      reads this
      requires Valid()
      ensures r == items[currentIndex]
    {
      ModUnique(currentIndex, currentIndex, |items|);
      CocktailAt(0).value
    }

    /** prevCocktail = getCocktailAt(-1): wraps from the first to the last. */
    function PrevCocktail(): (r: Item)
      reads this
      requires Valid()
      ensures r == items[if currentIndex == 0 then |items| - 1 else currentIndex - 1]
    {
      var j := if currentIndex == 0 then |items| - 1 else currentIndex - 1;
      MultipleMod(-1, |items|);
      ModUnique(currentIndex - 1, j, |items|);
      CocktailAt(-1).value
    }

    /** nextCocktail = getCocktailAt(1): wraps from the last to the first. */
    function NextCocktail(): (r: Item)
      reads this
      requires Valid()
      ensures r == items[if currentIndex == |items| - 1 then 0 else currentIndex + 1]
    {
      var j := if currentIndex == |items| - 1 then 0 else currentIndex + 1;
      MultipleMod(1, |items|);
      ModUnique(currentIndex + 1, j, |items|);
      CocktailAt(1).value
    }

    /** The `isActive` flags of the tabs: exactly one is set, the current one. */
    function ActiveTabs(): (flags: seq<bool>)
      reads this
      requires Valid()
      ensures |flags| == |items|
      ensures CountActive(flags) == 1
      ensures flags[currentIndex]
    {
      ExactlyOneTabActive(|items|, currentIndex);
      ActiveFlags(|items|, currentIndex)
    }

    /** The onClick of tab `index`. */
    method SelectTab(index: int)
      requires Valid() && 0 <= index < |items|
      modifies this`currentIndex
      ensures Valid()
      ensures currentIndex == Step(old(currentIndex), |items|, Tab(index))
      ensures currentIndex == index && CurrentCocktail() == items[index]
    {
      GoToSlide(index);
    }

    /** The onClick of the left arrow: the previous cocktail becomes current. */
    method ShowPrevious()
      requires Valid()
      modifies this`currentIndex
      ensures Valid()
      ensures currentIndex == Step(old(currentIndex), |items|, LeftArrow)
      ensures CurrentCocktail() == old(PrevCocktail())
    {
      GoToSlide(currentIndex - 1);
    }

    /** The onClick of the right arrow: the next cocktail becomes current. */
    method ShowNext()
      requires Valid()
      modifies this`currentIndex
      ensures Valid()
      ensures currentIndex == Step(old(currentIndex), |items|, RightArrow)
      ensures CurrentCocktail() == old(NextCocktail())
    {
      GoToSlide(currentIndex + 1);
    }
  }
}
