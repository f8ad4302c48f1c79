/**
 * The value-level helpers of the data model: product tags and discounts,
 * cart totals, and the personalised offer's used/valid state. The category
 * tree walks are in module CategoryTree.
 */
module Models {
  import opened Common

  /** A product row; `category` is the legacy free-text category column. */
  datatype Product = Product(
    id: int,
    name: string,
    price: real,
    categoryId: int,
    category: Option<string>,
    brand: Option<string>,
    tags: Option<string>,
    stockQuantity: int,
    discountPercentage: real)

  // ---------------------------------------------------------------------
  // Tags: `[tag.strip() for tag in self.tags.split(',')] if self.tags else []`

  /** The characters Python's `str.isspace` accepts. */
  predicate IsSpace(ch: char) {
    || ch == ' ' || ch == '\t' || ch == '\n' || ch == '\r' || ch == '\U{000B}' || ch == '\U{000C}'
    || ('\U{001C}' <= ch <= '\U{001F}') || ch == '\U{0085}' || ch == '\U{00A0}' || ch == '\U{1680}'
    || ('\U{2000}' <= ch <= '\U{200A}') || ch == '\U{2028}' || ch == '\U{2029}' || ch == '\U{202F}'
    || ch == '\U{205F}' || ch == '\U{3000}'
  }

  /** Neither end of `s` is whitespace. */
  predicate Stripped(s: string) {
    s == [] || (!IsSpace(s[0]) && !IsSpace(s[|s| - 1]))
  }

  /** How many whitespace characters `s` starts with. */
  function LeadingSpace(s: string): (n: nat)
    ensures n <= |s|
    ensures forall k :: 0 <= k < n ==> IsSpace(s[k])
    ensures n == |s| || !IsSpace(s[n])
  {
    if s != [] && IsSpace(s[0]) then 1 + LeadingSpace(s[1..]) else 0
  }

  /** How many whitespace characters `s` ends with. */
  function TrailingSpace(s: string): (n: nat)
    ensures n <= |s|
    ensures forall k :: |s| - n <= k < |s| ==> IsSpace(s[k])
    ensures n == |s| || !IsSpace(s[|s| - 1 - n])
  {
    if s != [] && IsSpace(s[|s| - 1]) then 1 + TrailingSpace(s[..|s| - 1]) else 0
  }

  /**
   * `str.strip()`: the result is the part of `s` between a whitespace-only
   * prefix and a whitespace-only suffix, and neither of its ends is
   * whitespace.
   */
  function Strip(s: string): (r: string)
    ensures Stripped(r)
    ensures var a := LeadingSpace(s);
      && a + |r| <= |s|
      && r == s[a..a + |r|]
      && (forall k :: 0 <= k < a ==> IsSpace(s[k]))
      && (forall k :: a + |r| <= k < |s| ==> IsSpace(s[k]))
  {
    var a := LeadingSpace(s);
    var rest := s[a..];
    rest[..|rest| - TrailingSpace(rest)]
  }

  lemma StripInfix(s: string, c: char)
    requires c !in s
    ensures c !in Strip(s)
  {
    var r := Strip(s);
    var a := LeadingSpace(s);
    assert forall k :: 0 <= k < |r| ==> r[k] == s[a + k];
  }

  lemma StripStripped(s: string)
    requires Stripped(s)
    ensures Strip(s) == s
  {
    assert LeadingSpace(s) == 0;
    assert TrailingSpace(s) == 0;
  }

  /** Stripping twice is stripping once. */
  lemma StripIdempotent(s: string)
    ensures Strip(Strip(s)) == Strip(s)
  {
    StripStripped(Strip(s));
  }

  /** `s.split(sep)` for a one-character separator. */
  function Split(s: string, sep: char): (r: seq<string>)
    ensures |r| >= 1
    ensures forall i :: 0 <= i < |r| ==> sep !in r[i]
  {
    if s == [] then [""]
    else
      var rest := Split(s[1..], sep);
      if s[0] == sep then [""] + rest
      else [[s[0]] + rest[0]] + rest[1..]
  }

  lemma {:induction false} JoinCons(a: string, rest: seq<string>, sep: string)
    requires rest != []
    ensures Join([a] + rest, sep) == a + sep + Join(rest, sep)
  {
    if |rest| > 1 {
      var init := rest[..|rest| - 1];
      JoinCons(a, init, sep);
      assert ([a] + rest)[..|[a] + rest| - 1] == [a] + init;
    }
  }

  /** Joining the pieces again with the separator gives back the string. */
  lemma {:induction false} JoinSplit(s: string, sep: char)
    ensures Join(Split(s, sep), [sep]) == s
  {
    if s != [] {
      var rest := Split(s[1..], sep);
      JoinSplit(s[1..], sep);
      assert Join(rest, [sep]) == s[1..];
      if s[0] == sep {
        assert Split(s, sep) == [""] + rest;
        JoinCons("", rest, [sep]);
      } else {
        var head := [s[0]] + rest[0];
        assert Split(s, sep) == [head] + rest[1..];
        if |rest| == 1 {
          assert Join([head], [sep]) == head;
        } else {
          JoinStep(s[0], rest, [sep]);
        }
      }
    }
  }

  lemma JoinStep(c: char, rest: seq<string>, sep: string)
    requires |rest| > 1
    ensures Join([[c] + rest[0]] + rest[1..], sep) == [c] + Join(rest, sep)
  {
    JoinCons([c] + rest[0], rest[1..], sep);
    JoinCons(rest[0], rest[1..], sep);
    assert rest == [rest[0]] + rest[1..];
  }

  lemma {:induction false} SplitNoSep(s: string, sep: char)
    requires sep !in s
    ensures Split(s, sep) == [s]
  {
    if s != [] {
      SplitNoSep(s[1..], sep);
      assert s == [s[0]] + s[1..];
    }
  }

  lemma {:induction false} SplitAt(a: string, b: string, sep: char)
    requires sep !in a
    ensures Split(a + [sep] + b, sep) == [a] + Split(b, sep)
  {
    if a == [] {
      assert ([sep] + b)[1..] == b;
    } else {
      SplitAt(a[1..], b, sep);
      assert (a + [sep] + b)[1..] == a[1..] + [sep] + b;
      assert a == [a[0]] + a[1..];
    }
  }

  /** Splitting a join of separator-free pieces gives back the pieces. */
  lemma {:induction false} SplitJoin(parts: seq<string>, sep: char)
    requires parts != []
    requires forall i :: 0 <= i < |parts| ==> sep !in parts[i]
    ensures Split(Join(parts, [sep]), sep) == parts
  {
    if |parts| == 1 {
      SplitNoSep(parts[0], sep);
    } else {
      JoinCons(parts[0], parts[1..], [sep]);
      assert parts == [parts[0]] + parts[1..];
      SplitJoin(parts[1..], sep);
      SplitAt(parts[0], Join(parts[1..], [sep]), sep);
    }
  }

  function StripAll(pieces: seq<string>): (r: seq<string>)
    ensures |r| == |pieces|
    ensures forall i :: 0 <= i < |r| ==> r[i] == Strip(pieces[i])
  {
    if pieces == [] then [] else StripAll(pieces[..|pieces| - 1]) + [Strip(pieces[|pieces| - 1])]
  }

  /** `Product.get_tags_list`. */
  function GetTagsList(tags: Option<string>): (r: seq<string>)
    ensures (tags == None || tags == Some("")) <==> r == []
    ensures forall i :: 0 <= i < |r| ==> ',' !in r[i] && Stripped(r[i])
  {
    if tags == None || tags == Some("") then []
    else
      var pieces := Split(tags.value, ',');
      assert forall i :: 0 <= i < |pieces| ==> ',' !in Strip(pieces[i]) by {
        forall i | 0 <= i < |pieces| ensures ',' !in Strip(pieces[i]) {
          StripInfix(pieces[i], ',');
        }
      }
      StripAll(pieces)
  }

  /**
   * Tags written as a comma-separated list of clean tags come back as that
   * list: the parser is the inverse of the way tags are written.
   */
  lemma {:induction false} TagsRoundTrip(ts: seq<string>)
    requires ts != [] && Join(ts, ",") != ""
    requires forall i :: 0 <= i < |ts| ==> ',' !in ts[i] && Stripped(ts[i])
    ensures GetTagsList(Some(Join(ts, ","))) == ts
  {
    var joined := Join(ts, ",");
    SplitJoin(ts, ',');
    assert Split(joined, ',') == ts;
    forall i | 0 <= i < |ts| ensures Strip(ts[i]) == ts[i] {
      StripStripped(ts[i]);
    }
    assert StripAll(ts) == ts;
  }

  /** The number of tags is one more than the number of commas. */
  lemma {:induction false} TagCount(s: string)
    ensures |Split(s, ',')| == multiset(s)[','] + 1
  {
    if s != [] {
      TagCount(s[1..]);
      assert s == [s[0]] + s[1..];
    }
  }

  // ---------------------------------------------------------------------
  // Prices.

  /** `Product.get_discounted_price`: a positive percentage comes off the price. */
  function GetDiscountedPrice(p: Product): (r: real)
    ensures p.discountPercentage <= 0.0 ==> r == p.price
    ensures p.discountPercentage > 0.0 ==> p.price - r == p.price * p.discountPercentage / 100.0
    ensures 0.0 <= p.price && p.discountPercentage <= 100.0 ==> 0.0 <= r <= p.price
    ensures 0.0 < p.price && 0.0 < p.discountPercentage ==> r < p.price
  {
    if p.discountPercentage > 0.0 then p.price * (1.0 - p.discountPercentage / 100.0) else p.price
  }

  // ---------------------------------------------------------------------
  // Carts.

  datatype CartItem = CartItem(productId: int, quantity: int, product: Product)

  /** `CartItem.get_subtotal` */
  function Subtotal(item: CartItem): real {
    GetDiscountedPrice(item.product) * item.quantity as real
  }

  /** `Cart.get_total`: the sum of the subtotals, in item order. */
  function GetTotal(items: seq<CartItem>): real {
    if items == [] then 0.0 else GetTotal(items[..|items| - 1]) + Subtotal(items[|items| - 1])
  }

  /** `Cart.get_item_count`: the sum of the quantities. */
  function GetItemCount(items: seq<CartItem>): int {
    if items == [] then 0 else GetItemCount(items[..|items| - 1]) + items[|items| - 1].quantity
  }

  predicate WellFormedItems(items: seq<CartItem>) {
    forall i :: 0 <= i < |items| ==>
      && items[i].quantity >= 0
      && items[i].product.price >= 0.0
      && items[i].product.discountPercentage <= 100.0
  }

  /** Two carts merged count and cost what they count and cost apart. */
  lemma {:induction false} CartConcat(a: seq<CartItem>, b: seq<CartItem>)
    ensures GetItemCount(a + b) == GetItemCount(a) + GetItemCount(b)
    ensures GetTotal(a + b) == GetTotal(a) + GetTotal(b)
  {
    if b == [] {
      assert a + b == a;
    } else {
      CartConcat(a, b[..|b| - 1]);
      assert (a + b)[..|a + b| - 1] == a + b[..|b| - 1];
    }
  }

  /**
   * With non-negative quantities, prices and discounts of at most 100%,
   * the count is at least every single quantity and the total is never
   * negative nor above the undiscounted total.
   */
  lemma {:induction false} CartBounds(items: seq<CartItem>)
    requires WellFormedItems(items)
    ensures GetTotal(items) >= 0.0
    ensures forall i :: 0 <= i < |items| ==> GetItemCount(items) >= items[i].quantity
  {
    if items != [] {
      var init := items[..|items| - 1];
      var last := items[|items| - 1];
      CartBounds(init);
      assert Subtotal(last) >= 0.0 by {
        var d := GetDiscountedPrice(last.product);
        assert d >= 0.0;
        assert d * last.quantity as real >= 0.0;
      }
      assert GetItemCount(init) >= 0 by { CountNonNegative(init); }
      forall i | 0 <= i < |items| ensures GetItemCount(items) >= items[i].quantity {
        if i < |items| - 1 {
          assert items[i] == init[i];
        }
      }
    }
  }

  lemma {:induction false} CountNonNegative(items: seq<CartItem>)
    requires WellFormedItems(items)
    ensures GetItemCount(items) >= 0
  {
    if items != [] {
      CountNonNegative(items[..|items| - 1]);
    }
  }

  // ---------------------------------------------------------------------
  // Personalised offers.

  class PersonalizedOffer {
    var userId: int
    var productId: int
    var discountPercentage: real
    var expiresAt: int
    var isUsed: bool
    var usedAt: Option<int>
    var orderId: Option<int>

    constructor (userId: int, productId: int, expiresAt: int)
      ensures this.userId == userId && this.productId == productId && this.expiresAt == expiresAt
      ensures discountPercentage == 10.0 && !isUsed && usedAt == None && orderId == None
    {
      this.userId := userId;
      this.productId := productId;
      this.expiresAt := expiresAt;
      discountPercentage := 10.0;
      isUsed := false;
      usedAt := None;
      orderId := None;
    }

    /** `is_valid`: not used and not yet expired at `now`. */
    function IsValid(now: int): bool
      reads this
    {
      !isUsed && now < expiresAt
    }

    /** `apply_to_order`: afterwards the offer is used and never valid again. */
    method ApplyToOrder(orderId: int, now: int)
      modifies this
      ensures isUsed && usedAt == Some(now) && this.orderId == Some(orderId)
      ensures userId == old(userId) && productId == old(productId)
      ensures discountPercentage == old(discountPercentage) && expiresAt == old(expiresAt)
      ensures forall t :: !IsValid(t)
    {
      isUsed := true;
      usedAt := Some(now);
      this.orderId := Some(orderId);
    }
  }
}
