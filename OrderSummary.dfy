/**
 * The text of the order e-mail built at checkout (App.tsx:97-105): one line
 * per cart line, joined with newlines, between a fixed greeting and the total.
 * JavaScript's number-to-text conversion is a parameter, `show`.
 */
module OrderSummary {
  import opened Wrappers
  import opened Arrays
  import opened Prices
  import opened Cart

  const ShopAddress: string := "info@espacenaturae.ca"
  const OrderSubject: string := "Nouvelle commande - Espace Naturaē"
  /** The fixed lines of the order body (App.tsx:105). */
  const Hello: string := "Bonjour Espace Naturaē,"
  const Intro: string := "Je souhaite passer la commande suivante :"
  const Details: string := "Coordonnées client :"
  const NameField: string := "Nom :"
  const PhoneField: string := "Téléphone :"
  const AddressField: string := "Adresse de livraison :"
  const Thanks: string := "Merci !"
  const TotalLabel: string := "Total : "

  const Greeting: string := Hello + "\n\n" + Intro + "\n\n"
  const Closing: string := "\n\n" + Details + "\n" + NameField + "\n" + PhoneField + "\n" + AddressField + "\n\n" + Thanks

  /** The greeting and the closing, read line by line. */
  const GreetingLines: seq<string> := [Hello, "", Intro, ""]
  const ClientLines: seq<string> := ["", Details, NameField, PhoneField, AddressField, "", Thanks]

  /** The total, read line by line: an empty line, then the amount. */
  function TotalLines(total: string): seq<string>
  {
    ["", TotalLabel + total + "$"]
  }

  /** One line of the order (App.tsx:101-102). */
  function ItemLine(item: CartItem, show: real -> string): string
  {
    var itemPrice := NumericPrice(item.price);
    var format := if item.selectedOption.Some? then " (" + item.selectedOption.value.name + ")" else "";
    "- " + item.name + format + " x" + show(item.quantity as real) + " : " + show(itemPrice)
      + "$ (Total: " + show(LineTotal(item)) + "$)"
  }

  /** `itemsList` before joining: one line per cart line, in cart order. */
  function ItemLines(cart: seq<CartItem>, show: real -> string): (r: seq<string>)
    ensures |r| == |cart| && forall k :: 0 <= k < |cart| ==> r[k] == ItemLine(cart[k], show)
  {
    Map(cart, (item: CartItem) => ItemLine(item, show))
  }

  /** `lines.join(sep)`. */
  function Join(lines: seq<string>, sep: char): string
  {
    if lines == [] then ""
    else if |lines| == 1 then lines[0]
    else lines[0] + [sep] + Join(lines[1..], sep)
  }

  /** The pieces of `s` between occurrences of `sep`: the inverse of Join. */
  function Split(s: string, sep: char): (r: seq<string>)
    ensures |r| > 0
  {
    if s == [] then [""]
    else if s[0] == sep then [""] + Split(s[1..], sep)
    else
      var rest := Split(s[1..], sep);
      [[s[0]] + rest[0]] + rest[1..]
  }

  /** The order body (App.tsx:105). */
  function OrderBody(cart: seq<CartItem>, show: real -> string): string
  {
    Greeting + Join(ItemLines(cart, show), '\n') + "\n\n" + TotalLabel + show(Total(cart)) + "$" + Closing
  }

  lemma {:induction false} SplitWithout(a: string, sep: char)
    requires sep !in a
    ensures Split(a, sep) == [a]
  {
    if a != [] {
      SplitWithout(a[1..], sep);
      assert [a[0]] + a[1..] == a;
    }
  }

  lemma {:induction false} SplitAfter(a: string, sep: char, b: string)
    requires sep !in a
    ensures Split(a + [sep] + b, sep) == [a] + Split(b, sep)
  {
    if a == [] {
      assert a + [sep] + b == [sep] + b;
      assert ([sep] + b)[1..] == b;
    } else {
      var s := a + [sep] + b;
      assert s[0] == a[0] && s[1..] == a[1..] + [sep] + b;
      SplitAfter(a[1..], sep, b);
      assert [a[0]] + a[1..] == a;
    }
  }

  /** Splitting the joined lines gives the lines back, when no line holds the separator. */
  lemma {:induction false} SplitJoin(lines: seq<string>, sep: char)
    requires |lines| > 0
    requires forall k :: 0 <= k < |lines| ==> sep !in lines[k]
    ensures Split(Join(lines, sep), sep) == lines
  {
    if |lines| == 1 {
      SplitWithout(lines[0], sep);
    } else {
      SplitJoin(lines[1..], sep);
      SplitAfter(lines[0], sep, Join(lines[1..], sep));
      assert [lines[0]] + lines[1..] == lines;
    }
  }

  /** No product name, option label or printed number holds a newline. */
  ghost predicate NoNewlines(cart: seq<CartItem>, show: real -> string)
  {
    (forall k :: 0 <= k < |cart| ==> '\n' !in cart[k].name) &&
    (forall k :: 0 <= k < |cart| && cart[k].selectedOption.Some? ==> '\n' !in cart[k].selectedOption.value.name) &&
    (forall x: real :: '\n' !in show(x))
  }

  /** A line of the order holds no newline when its parts hold none. */
  lemma LineHasNoNewline(item: CartItem, show: real -> string)
    requires '\n' !in item.name
    requires item.selectedOption.Some? ==> '\n' !in item.selectedOption.value.name
    requires forall x: real :: '\n' !in show(x)
    ensures '\n' !in ItemLine(item, show)
  {
  }

  /** The order lists each cart line on a line of its own, in cart order: reading
      the item block back line by line gives exactly one line per cart line. */
  lemma ItemsListHasOneLinePerItem(cart: seq<CartItem>, show: real -> string)
    requires |cart| > 0
    requires NoNewlines(cart, show)
    ensures Split(Join(ItemLines(cart, show), '\n'), '\n') == ItemLines(cart, show)
  {
    var lines := ItemLines(cart, show);
    forall k | 0 <= k < |lines| ensures '\n' !in lines[k] {
      LineHasNoNewline(cart[k], show);
    }
    SplitJoin(lines, '\n');
  }

  /** Joining two non-empty lists puts one separator between their texts. */
  lemma {:induction false} JoinAppend(a: seq<string>, b: seq<string>, sep: char)
    requires |a| > 0 && |b| > 0
    ensures Join(a + b, sep) == Join(a, sep) + [sep] + Join(b, sep)
  {
    if |a| == 1 {
      assert (a + b)[1..] == b;
    } else {
      JoinAppend(a[1..], b, sep);
      assert (a + b)[1..] == a[1..] + b;
    }
  }

  /** Joining a line in front of a non-empty list. */
  lemma JoinCons(x: string, rest: seq<string>, sep: char)
    requires |rest| > 0
    ensures Join([x] + rest, sep) == x + [sep] + Join(rest, sep)
  {
    assert ([x] + rest)[1..] == rest;
  }

  lemma GreetingIsLines()
    ensures Greeting == Join(GreetingLines, '\n') + "\n"
  {
    GreetingShape(Hello, Intro);
  }

  lemma GreetingShape(h: string, i: string)
    ensures h + "\n\n" + i + "\n\n" == Join([h, "", i, ""], '\n') + "\n"
  {
    var nl: string := "\n";
    var g := [h, "", i, ""];
    JoinCons(g[2], [g[3]], '\n');
    assert g[2..] == [g[2]] + [g[3]];
    JoinCons(g[1], g[2..], '\n');
    assert g[1..] == [g[1]] + g[2..];
    JoinCons(g[0], g[1..], '\n');
    assert g == [g[0]] + g[1..];
    assert "\n\n" == nl + nl;
  }

  lemma ClosingIsLines()
    ensures Closing == "\n" + Join(ClientLines, '\n')
  {
    ClosingShape(Details, NameField, PhoneField, AddressField, Thanks);
  }

  lemma ClosingShape(d: string, n: string, p: string, a: string, t: string)
    ensures "\n\n" + d + "\n" + n + "\n" + p + "\n" + a + "\n\n" + t == "\n" + Join(["", d, n, p, a, "", t], '\n')
  {
    var nl: string := "\n";
    var c := ["", d, n, p, a, "", t];
    JoinCons(c[5], c[6..], '\n');
    assert c[5..] == [c[5]] + c[6..];
    JoinCons(c[4], c[5..], '\n');
    assert c[4..] == [c[4]] + c[5..];
    JoinCons(c[3], c[4..], '\n');
    assert c[3..] == [c[3]] + c[4..];
    JoinCons(c[2], c[3..], '\n');
    assert c[2..] == [c[2]] + c[3..];
    JoinCons(c[1], c[2..], '\n');
    assert c[1..] == [c[1]] + c[2..];
    JoinCons(c[0], c[1..], '\n');
    assert c == [c[0]] + c[1..];
    assert "\n\n" == nl + nl;
  }

  lemma FixedLinesHaveNoNewline()
    ensures forall k :: 0 <= k < |GreetingLines| ==> '\n' !in GreetingLines[k]
    ensures forall k :: 0 <= k < |ClientLines| ==> '\n' !in ClientLines[k]
  {
    GreetingHasNoNewline();
    DetailsHaveNoNewline();
  }

  lemma GreetingHasNoNewline()
    ensures '\n' !in Hello && '\n' !in Intro
  {
  }

  lemma DetailsHaveNoNewline()
    ensures '\n' !in Details && '\n' !in NameField && '\n' !in PhoneField
    ensures '\n' !in AddressField && '\n' !in Thanks
  {
  }

  /** The shape of the order body: three joined blocks around the total's line. */
  lemma JoinedBody(gl: seq<string>, items: seq<string>, t: string, cl: seq<string>)
    requires |gl| > 0 && |items| > 0 && |cl| > 0
    ensures Join(gl, '\n') + "\n" + Join(items, '\n') + "\n\n" + t + "\n" + Join(cl, '\n') ==
            Join(gl + items + (["", t] + cl), '\n')
  {
    var nl: string := "\n";
    TotalBlock(t, cl);
    ThreeBlocks(gl, items, ["", t] + cl);
    assert "\n\n" == nl + nl;
    Regroup(Join(gl, '\n') + nl + Join(items, '\n'), nl, t, Join(cl, '\n'));
  }

  lemma TotalBlock(t: string, cl: seq<string>)
    requires |cl| > 0
    ensures Join(["", t] + cl, '\n') == "\n" + t + "\n" + Join(cl, '\n')
  {
    var nl: string := "\n";
    var pair: seq<string> := ["", t];
    assert pair[1..] == [t];
    assert Join([t], '\n') == t;
    assert Join(pair, '\n') == "" + nl + t;
    assert "" + nl + t == nl + t;
    JoinAppend(pair, cl, '\n');
  }

  lemma ThreeBlocks(a: seq<string>, b: seq<string>, c: seq<string>)
    requires |a| > 0 && |b| > 0 && |c| > 0
    ensures Join(a + b + c, '\n') == Join(a, '\n') + "\n" + Join(b, '\n') + "\n" + Join(c, '\n')
  {
    JoinAppend(a, b, '\n');
    JoinAppend(a + b, c, '\n');
  }

  lemma Regroup2(g: string, n: string, i: string, nn: string, l: string, v: string, d: string, c: string)
    ensures (g + n) + i + nn + l + v + d + (n + c) == g + n + i + nn + (l + v + d) + n + c
  {
    assert (g + n) + i + nn + l + v + d + (n + c) == ((g + n) + i + nn) + (l + v + d) + (n + c);
  }

  lemma Regroup(x: string, n: string, t: string, c: string)
    ensures x + n + (n + t + n + c) == x + (n + n) + t + n + c
  {
    assert n + t + n + c == n + (t + n + c);
    assert x + n + (n + (t + n + c)) == x + (n + n) + (t + n + c);
    assert x + (n + n) + (t + n + c) == x + (n + n) + t + n + c;
  }

  /** The order body is the joined list of all its lines, for a non-empty cart. */
  lemma OrderBodyIsJoin(cart: seq<CartItem>, show: real -> string)
    requires |cart| > 0
    ensures OrderBody(cart, show) ==
            Join(GreetingLines + ItemLines(cart, show) + (TotalLines(show(Total(cart))) + ClientLines), '\n')
  {
    var items := ItemLines(cart, show);
    var t := TotalLabel + show(Total(cart)) + "$";
    GreetingIsLines();
    ClosingIsLines();
    JoinedBody(GreetingLines, items, t, ClientLines);
    Regroup2(Join(GreetingLines, '\n'), "\n", Join(items, '\n'), "\n\n", TotalLabel, show(Total(cart)), "$",
             Join(ClientLines, '\n'));
  }

  /**
   * For a non-empty cart, the order body read line by line is the greeting's
   * lines, one line per cart line in cart order, an empty line and the total,
   * then the lines asking for the customer's details.
   */
  lemma OrderBodyLines(cart: seq<CartItem>, show: real -> string)
    requires |cart| > 0
    requires NoNewlines(cart, show)
    ensures Split(OrderBody(cart, show), '\n') ==
            GreetingLines + ItemLines(cart, show) + (TotalLines(show(Total(cart))) + ClientLines)
  {
    OrderBodyIsJoin(cart, show);
    ItemLinesHaveNoNewline(cart, show);
    AllLinesReadBack(ItemLines(cart, show), show(Total(cart)));
  }

  lemma AllLinesReadBack(items: seq<string>, total: string)
    requires forall k :: 0 <= k < |items| ==> '\n' !in items[k]
    requires '\n' !in total
    ensures Split(Join(GreetingLines + items + (TotalLines(total) + ClientLines), '\n'), '\n') ==
            GreetingLines + items + (TotalLines(total) + ClientLines)
  {
    BodyLinesHaveNoNewline(items, total);
    SplitJoin(GreetingLines + items + (TotalLines(total) + ClientLines), '\n');
  }

  lemma ItemLinesHaveNoNewline(cart: seq<CartItem>, show: real -> string)
    requires NoNewlines(cart, show)
    ensures forall k :: 0 <= k < |ItemLines(cart, show)| ==> '\n' !in ItemLines(cart, show)[k]
  {
    forall k | 0 <= k < |cart| ensures '\n' !in ItemLines(cart, show)[k] {
      LineHasNoNewline(cart[k], show);
    }
  }

  lemma BodyLinesHaveNoNewline(items: seq<string>, total: string)
    requires forall k :: 0 <= k < |items| ==> '\n' !in items[k]
    requires '\n' !in total
    ensures forall k :: 0 <= k < |GreetingLines + items + (TotalLines(total) + ClientLines)| ==>
              '\n' !in (GreetingLines + items + (TotalLines(total) + ClientLines))[k]
  {
    var all := GreetingLines + items + (TotalLines(total) + ClientLines);
    FixedLinesHaveNoNewline();
    assert '\n' !in TotalLabel;
    forall k | 0 <= k < |all| ensures '\n' !in all[k] {
      if k < |GreetingLines| {
        assert all[k] == GreetingLines[k];
      } else if k < |GreetingLines| + |items| {
        assert all[k] == items[k - |GreetingLines|];
      } else if k < |GreetingLines| + |items| + 2 {
        assert all[k] == TotalLines(total)[k - |GreetingLines| - |items|];
      } else {
        assert all[k] == ClientLines[k - |GreetingLines| - |items| - 2];
      }
    }
  }
}
