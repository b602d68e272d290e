# Cocktail carousel of the menu section

This project models the cocktail carousel of the bar site's menu section
(`components/Menu.jsx`). The component mounts with `currentIndex = 0` and
keeps that one integer as React state. `goToSlide(index)` stores
`(index + N) % N`, where N is the number of cocktails. `getCocktailAt(offset)`
reads `allCocktails[(currentIndex + offset + N) % N]`. The previous, current
and next cocktails are the reads at offsets -1, 0 and 1. Each tab compares its
own index with `currentIndex` to decide whether it is active. Three handlers
change the state: a tab calls `goToSlide(index)`, the left arrow calls
`goToSlide(currentIndex - 1)`, and the right arrow calls
`goToSlide(currentIndex + 1)`.

Files:

- `JsArith.dfy` (module `JsArith`) holds JavaScript's remainder operator.
  JavaScript's `%` truncates toward zero, so its result takes the sign of the
  dividend. Dafny's `%` is Euclidean. `JsRem` is pinned down by its contract:
  the sign rule, the magnitude bound, and divisibility of `a - r` by `n`.
- `Menu.dfy` (module `Menu`) holds the rest.
  - `Normalize(x, n)` is the expression `(x + n) % n`. It is used both to store
    and to read an index.
  - `Click`, `Step` and `Run` describe the three click handlers as a state
    machine over the index.
  - `ActiveFlags` and `CountActive` describe the tabs' `isActive` tests.
  - Class `Carousel` is the mounted component. It has a constant field `items`
    (the cocktail list) and a mutable field `currentIndex`. Its `GoToSlide`
    method assigns that field, and its functions read it.

The code uses a single truncating remainder, not the double remainder
`((x % N) + N) % N`. The model follows the code. So `goToSlide(x)` with
`x < -N` leaves `currentIndex` negative, unless `x` is a multiple of N. In
that case JavaScript gives `-0`, which reads as index 0. `Normalize` and
`GoToSlide` state exactly when the result is in range. `ReachableIndexInRange`
proves that no sequence of clicks ever produces such an argument.

Reading a negative array index gives `undefined` in JavaScript. `CocktailAt`
therefore returns an `Option`. The derived previous, current and next cocktails
require `Valid()`, because the component dereferences them (`.name`) on every
render. `ReachableIndexInRange` shows that every reachable state is valid.

## Model

| member | source | states |
|---|---|---|
| `JsArith.JsRem` | components/Menu.jsx:33 | JavaScript `%` on integers with a positive divisor: the result is non-negative and below `n` for a non-negative dividend. For a negative dividend it is in `(-n, 0]`. In both cases `a - r` is a multiple of `n`. |
| `Menu.Normalize` | components/Menu.jsx:33 | `(x + n) % n` is in `[0, n)` exactly when `x >= -n` or `x` is a multiple of `n`. When in range, it equals the cyclic index `x % n`. An index in `[0, n)` is kept unchanged. An `x` in `[-n, 0)` wraps to `x + n`. |
| `Menu.Step` | components/Menu.jsx:83-111 | One click from a valid index gives a valid index. A tab for `i` in `[0, n)` goes to exactly `i`. The left arrow goes to `current - 1`, or wraps from 0 to `n - 1`. The right arrow goes to `current + 1`, or wraps from `n - 1` to 0. |
| `Menu.ReachableIndexInRange` | components/Menu.jsx:9 | Starting from a valid index, any sequence of tab and arrow clicks (tabs only for indices of the list) ends at a valid index. This includes the mount index 0. |
| `Menu.ArrowsMoveCyclically` | components/Menu.jsx:97-111 | A sequence of arrow clicks moves the index to `(current + net displacement) % n`, the Euclidean cyclic position. |
| `Menu.ArrowsCancel` | components/Menu.jsx:97-111 | Right then left restores the index. Left then right restores it too. |
| `Menu.ExactlyOneTabActive` | components/Menu.jsx:72-73 | The number of tabs whose `index === currentIndex` is 1 when the index is valid and 0 otherwise. |
| `Menu.Carousel.constructor` | components/Menu.jsx:9 | Mounting sets the index to 0 over a non-empty cocktail list, so the state starts valid. |
| `Menu.Carousel.GoToSlide` | components/Menu.jsx:32-36 | Stores `Normalize(index, N)`. The new state is valid exactly when `index >= -N` or `index` is a multiple of N. A valid new state is the cyclic index `index % N`. An index already in range is stored unchanged, so `goToSlide(currentIndex)` changes nothing. |
| `Menu.Carousel.CocktailAt` | components/Menu.jsx:38-42 | The read is defined exactly when `currentIndex + offset >= -N` or it is a multiple of N. When defined, it is `items[(currentIndex + offset) % N]`. As a function, it changes no state. |
| `Menu.Carousel.CurrentCocktail` | components/Menu.jsx:44 | In a valid state, the current cocktail is `items[currentIndex]`. |
| `Menu.Carousel.PrevCocktail` | components/Menu.jsx:45 | In a valid state, the previous cocktail is the one before the current one. From the first cocktail it wraps to the last. |
| `Menu.Carousel.NextCocktail` | components/Menu.jsx:46 | In a valid state, the next cocktail is the one after the current one. From the last cocktail it wraps to the first. |
| `Menu.Carousel.ActiveTabs` | components/Menu.jsx:72-73 | In a valid state, there is one flag per cocktail, exactly one flag is set, and it is the current index's flag. |
| `Menu.Carousel.SelectTab` | components/Menu.jsx:83-85 | Clicking tab `index` keeps the state valid, performs `Step` with that tab, and makes `items[index]` the current cocktail. |
| `Menu.Carousel.ShowPrevious` | components/Menu.jsx:97 | The left arrow keeps the state valid and performs the left-arrow `Step`. The cocktail shown as previous before the click becomes the current one. |
| `Menu.Carousel.ShowNext` | components/Menu.jsx:111 | The right arrow keeps the state valid and performs the right-arrow `Step`. The cocktail shown as next before the click becomes the current one. |

## Left out

- The GSAP animations are not modelled (components/Menu.jsx:11-28, app/page.tsx, components/Contact.jsx and components/Navbar.tsx). They are third-party effects with durations, easing and scroll triggers. They hold no selection logic.
- JSX markup, `next/image`, `next/link` and CSS classes are not modelled. They are presentation only.
- The hover handlers in app/page.tsx are not modelled. They only start animations.
- The contents of `allCocktails` come from the constants module, which is not part of this model. The list is an arbitrary non-empty `seq<Item>`.
- React's re-rendering and state scheduling are not modelled. `setCurrentIndex` is a direct assignment to the field.
- An empty cocktail list is not modelled. There, `% 0` gives NaN and the render fails, so the constructor requires a non-empty list.
- JavaScript numbers are modelled as unbounded integers. The only values involved are list indices plus or minus one, so fractions and precision limits cannot arise.
- JsArith.JsRem: does not model a zero or negative divisor. The only divisor in the component is the list length.
