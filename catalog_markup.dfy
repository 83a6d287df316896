/**
 * The markup of the catalog's `tagcloud` and `category-list` template tags.
 *
 * A tag cloud gives every tag a level from 1 (the most products) to
 * `levels + 1` (none) and links it by name; a category list renders the
 * categories, in the tree order the catalog holds them, as nested lists or
 * as the options of a drop-down menu. The markup is described by sequences
 * of items whose rendering to text is fixed, so that the nesting can be
 * counted.
 */
module CatalogMarkup {
  import opened Wrappers
  import opened Strings

  // ---------------------------------------------------------------------
  // Rounding
  // ---------------------------------------------------------------------

  /** PHP `round(a / b)` on the exact quotient: halves are rounded away from zero. */
  function RoundHalfAway(a: int, b: int): int
    requires b > 0
  {
    if a >= 0 then (2 * a + b) / (2 * b) else -((2 * -a + b) / (2 * b))
  }

  /** The rounded quotient is the integer nearest `a / b`, a half going away from zero. */
  lemma RoundHalfAwayNearest(a: int, b: int)
    requires b > 0
    ensures var q := RoundHalfAway(a, b);
      && 2 * b * q - b <= 2 * a <= 2 * b * q + b
      && (a >= 0 ==> 2 * a < 2 * b * q + b)
      && (a < 0 ==> 2 * b * q - b < 2 * a)
  {
    var q := RoundHalfAway(a, b);
    if a >= 0 {
      DivBounds(2 * a + b, 2 * b);
      assert 2 * b * q <= 2 * a + b < 2 * b * q + 2 * b;
    } else {
      var m := (2 * -a + b) / (2 * b);
      DivBounds(2 * -a + b, 2 * b);
      assert 2 * b * m <= 2 * -a + b < 2 * b * m + 2 * b;
      assert q == -m;
    }
  }

  /** The floor quotient brackets its dividend. */
  lemma DivBounds(a: int, d: int)
    requires d > 0
    ensures d * (a / d) <= a < d * (a / d) + d
  {
  }

  /** Multiplying by a positive number keeps a strict order. */
  lemma {:induction false} MulStrict(d: int, x: int, y: int)
    requires d > 0 && x < y
    ensures d * x < d * y
    decreases y - x
  {
    assert d * (x + 1) == d * x + d;
    if x + 1 < y {
      MulStrict(d, x + 1, y);
    }
  }

  /** Multiplying by a positive number reflects the order of the factors. */
  lemma MulLess(d: int, x: int, y: int)
    requires d > 0
    ensures x < y <==> d * x < d * y
  {
    if x < y {
      MulStrict(d, x, y);
    } else if y < x {
      MulStrict(d, y, x);
    }
  }

  /** Floor division by a positive number is monotone. */
  lemma DivMonotone(a: int, b: int, d: int)
    requires a <= b && d > 0
    ensures a / d <= b / d
  {
    var qa, qb := a / d, b / d;
    DivBounds(a, d);
    DivBounds(b, d);
    assert d * (qb + 1) == d * qb + d;
    MulLess(d, qa, qb + 1);
  }

  /** A quotient with a remainder inside the divisor comes back out of floor division. */
  lemma DivExact(q: int, r: int, d: int)
    requires d > 0 && 0 <= r < d
    ensures (d * q + r) / d == q
  {
    var p := (d * q + r) / d;
    DivBounds(d * q + r, d);
    assert d * (q + 1) == d * q + d;
    assert d * (p + 1) == d * p + d;
    MulLess(d, p, q + 1);
    MulLess(d, q, p + 1);
  }

  // ---------------------------------------------------------------------
  // Tag cloud
  // ---------------------------------------------------------------------

  /** A tag with the number of products it is attached to. */
  datatype Tag = Tag(name: string, products: nat)

  /** The two link forms: pretty permalinks below the catalog page's path, or a query on the catalog page. */
  datatype LinkBase = Permalinks(path: string) | QueryString(page: string)

  /** The `levels` option when it is not empty, and 7 otherwise (`0` stands for an empty or missing option). */
  function Levels(option: int): int
  {
    if option != 0 then option else 7
  }

  /**
   * A tag's level: `round((1 - products / max) * levels) + 1`, on exact
   * rationals. PHP 5 turns a division by a largest count of 0 into a warning
   * and the value `false`, so `1 - false` is 1 and the level is `levels + 1`.
   */
  function Level(products: int, max: int, levels: int): int
    requires max >= 0
  {
    if max == 0 then levels + 1 else RoundHalfAway((max - products) * levels, max) + 1
  }

  /** The tag with the most products is at level 1. */
  lemma LevelOfMax(max: int, levels: int)
    requires max > 0
    ensures Level(max, max, levels) == 1
  {
  }

  /** A tag without products is at level `levels + 1`. */
  lemma LevelOfZero(max: int, levels: int)
    requires max > 0
    ensures Level(0, max, levels) == levels + 1
  {
    if levels >= 0 {
      assert 2 * ((max - 0) * levels) + max == (2 * max) * levels + max;
      DivExact(levels, max, 2 * max);
    } else {
      assert 2 * -((max - 0) * levels) + max == (2 * max) * -levels + max;
      DivExact(-levels, max, 2 * max);
    }
  }

  /** More products never give a higher level. */
  lemma LevelMonotone(p1: int, p2: int, max: int, levels: int)
    requires max > 0 && levels >= 0 && 0 <= p1 <= p2 <= max
    ensures Level(p2, max, levels) <= Level(p1, max, levels)
  {
    assert (max - p2) * levels <= (max - p1) * levels;
    assert 0 <= (max - p2) * levels;
    DivMonotone(2 * ((max - p2) * levels) + max, 2 * ((max - p1) * levels) + max, 2 * max);
  }

  /** With a non-negative number of levels, every level lies between 1 and `levels + 1`. */
  lemma LevelBounds(p: int, max: int, levels: int)
    requires max > 0 && levels >= 0 && 0 <= p <= max
    ensures 1 <= Level(p, max, levels) <= levels + 1
  {
    LevelMonotone(p, max, max, levels);
    LevelMonotone(0, p, max, levels);
    LevelOfMax(max, levels);
    LevelOfZero(max, levels);
  }

  /** A tag's link: spaces in the name become `+`. */
  function TagLink(base: LinkBase, name: string): (r: string)
  {
    match base
    case Permalinks(path) => path + "/tag/" + ReplaceChar(name, ' ', '+') + "/"
    case QueryString(page) => page + "&amp;shopp_tag=" + ReplaceChar(name, ' ', '+')
  }

  /** The encoded name in a tag link has no spaces, and decoding `+` gives the name back when it had no `+` of its own. */
  lemma TagNameEncoding(name: string)
    ensures ' ' !in ReplaceChar(name, ' ', '+')
    ensures '+' !in name ==> ReplaceChar(ReplaceChar(name, ' ', '+'), '+', ' ') == name
  {
    var e := ReplaceChar(name, ' ', '+');
    if '+' !in name {
      var d := ReplaceChar(e, '+', ' ');
      forall i | 0 <= i < |name| ensures d[i] == name[i] {
        assert name[i] != '+';
      }
    }
  }

  /** A line of the tag cloud: `<li class="level-N"><a href="LINK">NAME</a></li> `. */
  function CloudItem(level: int, link: string, name: string): string
  {
    "<li class=\"level-" + IntToString(level) + "\"><a href=\"" + link + "\">" + name + "</a></li> "
  }

  /** The lines of the first `n` tags of the cloud, whose largest product count is `max`. */
  function CloudItems(tags: seq<Tag>, n: nat, max: int, levels: int, base: LinkBase): string
    requires n <= |tags| && max >= 0
  {
    if n == 0 then ""
    else
      var t := tags[n - 1];
      CloudItems(tags, n - 1, max, levels, base) + CloudItem(Level(t.products, max, levels), TagLink(base, t.name), t.name)
  }

  /** The largest product count of the first `n` tags, or -1 for none. */
  function MaxProducts(tags: seq<Tag>, n: nat): int
    requires n <= |tags|
  {
    if n == 0 then -1
    else
      var m := MaxProducts(tags, n - 1);
      if m == -1 || tags[n - 1].products > m then tags[n - 1].products else m
  }

  /** The smallest product count of the first `n` tags, or -1 for none. */
  function MinProducts(tags: seq<Tag>, n: nat): int
    requires n <= |tags|
  {
    if n == 0 then -1
    else
      var m := MinProducts(tags, n - 1);
      if m == -1 || tags[n - 1].products < m then tags[n - 1].products else m
  }

  /** The largest count is -1 exactly when there are no tags, and otherwise the count of one tag and at least any other. */
  lemma {:induction false} MaxProductsIsMax(tags: seq<Tag>, n: nat)
    requires n <= |tags|
    ensures var m := MaxProducts(tags, n);
      && (n == 0 <==> m == -1)
      && (forall i :: 0 <= i < n ==> tags[i].products <= m)
      && (n > 0 ==> exists i :: 0 <= i < n && tags[i].products == m)
  {
    if n > 0 {
      MaxProductsIsMax(tags, n - 1);
      var m := MaxProducts(tags, n);
      if MaxProducts(tags, n - 1) == m {
        var k :| 0 <= k < n - 1 && tags[k].products == m;
        assert 0 <= k < n && tags[k].products == m;
      } else {
        assert tags[n - 1].products == m;
      }
    }
  }

  /** The smallest count is -1 exactly when there are no tags, and otherwise the count of one tag and at most any other. */
  lemma {:induction false} MinProductsIsMin(tags: seq<Tag>, n: nat)
    requires n <= |tags|
    ensures var m := MinProducts(tags, n);
      && (n == 0 <==> m == -1)
      && (forall i :: 0 <= i < n ==> m <= tags[i].products)
      && (n > 0 ==> exists i :: 0 <= i < n && tags[i].products == m)
  {
    if n > 0 {
      MinProductsIsMin(tags, n - 1);
      var m := MinProducts(tags, n);
      if MinProducts(tags, n - 1) == m {
        var k :| 0 <= k < n - 1 && tags[k].products == m;
        assert 0 <= k < n && tags[k].products == m;
      } else {
        assert tags[n - 1].products == m;
      }
    }
  }

  /** The first loop of `tagcloud`: the smallest and largest product counts, both -1 when there are no tags. */
  method Extremes(tags: seq<Tag>) returns (min: int, max: int)
    ensures min == MinProducts(tags, |tags|) && max == MaxProducts(tags, |tags|)
  {
    min, max := -1, -1;
    var i := 0;
    while i < |tags|
      invariant 0 <= i <= |tags|
      invariant min == MinProducts(tags, i) && max == MaxProducts(tags, i)
    {
      var tag := tags[i];
      if min == -1 || tag.products < min {
        min := tag.products;
      }
      if max == -1 || tag.products > max {
        max := tag.products;
      }
      i := i + 1;
    }
  }

  /** The largest count of a non-empty list is 0 exactly when no tag has products. */
  lemma MaxProductsZero(tags: seq<Tag>)
    requires |tags| > 0
    ensures MaxProducts(tags, |tags|) == 0 <==> forall i :: 0 <= i < |tags| ==> tags[i].products == 0
  {
    var m := MaxProducts(tags, |tags|);
    MaxProductsIsMax(tags, |tags|);
    if m == 0 {
      forall i | 0 <= i < |tags| ensures tags[i].products == 0 {
        assert tags[i].products <= m;
      }
    }
  }

  const CloudOpen: string := "<ul class=\"shopp tagcloud\">"

  /**
   * When every tag has no products, the largest count is 0 and every tag is
   * at level `levels + 1`.
   */
  lemma CloudWithoutProducts(tags: seq<Tag>, levels: int)
    requires |tags| > 0 && forall i :: 0 <= i < |tags| ==> tags[i].products == 0
    ensures MaxProducts(tags, |tags|) == 0
    ensures forall i :: 0 <= i < |tags| ==> Level(tags[i].products, MaxProducts(tags, |tags|), levels) == levels + 1
  {
    MaxProductsZero(tags);
  }

  /**
   * The `tagcloud` tag: the list of the tags' lines, in order, leveled
   * against the largest product count.
   */
  method TagCloud(tags: seq<Tag>, levelsOption: int, base: LinkBase) returns (s: string)
    ensures |tags| > 0 ==>
      && MaxProducts(tags, |tags|) >= 0
      && s == CloudOpen + CloudItems(tags, |tags|, MaxProducts(tags, |tags|), Levels(levelsOption), base) + "</ul>"
    ensures |tags| == 0 ==> s == CloudOpen + "</ul>"
  {
    var levels := if levelsOption != 0 then levelsOption else 7;
    var min, max := Extremes(tags);
    if |tags| == 0 {
      return CloudOpen + "</ul>";
    }
    MaxProductsIsMax(tags, |tags|);
    var items := CloudLines(tags, max, levels, base);
    return CloudOpen + items + "</ul>";
  }

  /** The second loop of `tagcloud`: one line per tag, in order. */
  method CloudLines(tags: seq<Tag>, max: int, levels: int, base: LinkBase) returns (s: string)
    requires max >= 0
    ensures s == CloudItems(tags, |tags|, max, levels, base)
  {
    s := "";
    var i := 0;
    while i < |tags|
      invariant 0 <= i <= |tags|
      invariant s == CloudItems(tags, i, max, levels, base)
    {
      var tag := tags[i];
      var level := Level(tag.products, max, levels);
      var link := TagLink(base, tag.name);
      CloudItemsStep(tags, i, max, levels, base);
      s := s + CloudItem(level, link, tag.name);
      i := i + 1;
    }
  }

  lemma CloudItemsStep(tags: seq<Tag>, n: nat, max: int, levels: int, base: LinkBase)
    requires n < |tags| && max >= 0
    ensures var t := tags[n];
      CloudItems(tags, n + 1, max, levels, base)
        == CloudItems(tags, n, max, levels, base) + CloudItem(Level(t.products, max, levels), TagLink(base, t.name), t.name)
  {
  }

  // ---------------------------------------------------------------------
  // Category list
  // ---------------------------------------------------------------------

  /**
   * A loaded category as the list sees it: its depth in the tree, its
   * product count, whether it is a smart category and whether it has
   * children with products.
   */
  datatype Category = Category(id: int, name: string, uri: string, depth: nat, total: int, smart: bool, children: bool)

  /** The options of `category-list` (after `value_is_true`). */
  datatype ListOptions = ListOptions(
    title: string, dropdown: bool, hierarchy: bool, products: bool, showall: bool, permalinks: bool, shopUri: string)

  /** One piece of a category list. */
  datatype Markup =
    | OpenChildren
    | CloseList
    | ListItem(link: string, name: string, count: string)
    | MenuOption(link: string, padding: string, name: string, count: string)

  const ChildrenOpen: string := "<ul class=\"children\">"
  const ListClose: string := "</ul>"

  function ItemLine(link: string, name: string, count: string): string
  {
    "<li><a href=\"" + link + "\">" + name + "</a>" + count + "</li>"
  }

  function OptionLine(link: string, padding: string, name: string, count: string): string
  {
    "<option value=\"" + link + "\">" + padding + name + count + "</option>"
  }

  function Render(m: Markup): string
  {
    match m
    case OpenChildren => ChildrenOpen
    case CloseList => ListClose
    case ListItem(link, name, count) => ItemLine(link, name, count)
    case MenuOption(link, padding, name, count) => OptionLine(link, padding, name, count)
  }

  function RenderAll(ms: seq<Markup>): string
  {
    if ms == [] then "" else RenderAll(ms[..|ms| - 1]) + Render(ms[|ms| - 1])
  }

  lemma RenderAllAppend(ms: seq<Markup>, extra: seq<Markup>)
    ensures RenderAll(ms + extra) == RenderAll(ms) + RenderAll(extra)
    decreases |extra|
  {
    if extra != [] {
      var init := extra[..|extra| - 1];
      var last := extra[|extra| - 1];
      assert (ms + extra)[..|ms + extra| - 1] == ms + init;
      assert (ms + extra)[|ms + extra| - 1] == last;
      RenderAllAppend(ms, init);
      assert RenderAll(extra) == RenderAll(init) + Render(last);
    } else {
      assert ms + extra == ms;
    }
  }

  lemma RenderOne(m: Markup)
    ensures RenderAll([m]) == Render(m)
  {
    assert [m][..0] == [];
  }

  /** `n` copies of one piece. */
  function Copies(m: Markup, n: nat): (r: seq<Markup>)
    ensures |r| == n && forall i :: 0 <= i < n ==> r[i] == m
  {
    if n == 0 then [] else Copies(m, n - 1) + [m]
  }

  /** The title option, with an empty one (including `"0"`) read as no title. */
  function Title(t: string): string
  {
    if PhpEmpty(t) then "" else t
  }

  /** A category's link: below the shop's URI with permalinks, a `shopp_category` query otherwise. */
  function CategoryLink(opts: ListOptions, c: Category): string
  {
    if opts.permalinks then opts.shopUri + "category/" + c.uri
    else opts.shopUri + "&amp;shopp_category=" + IntToString(c.id)
  }

  /** The depth before the `n`-th category: that of the one before it, 0 at the start. */
  function DepthBefore(cats: seq<Category>, n: nat): nat
    requires n <= |cats|
  {
    if n == 0 then 0 else cats[n - 1].depth
  }

  /** In the nested list, a category is shown if `showall` is on, it has products, it is smart, or it has children. */
  predicate Shown(opts: ListOptions, c: Category)
  {
    opts.showall || c.total > 0 || c.smart || c.children
  }

  /** The product count a nested-list item carries: ` (N)` when counts are on and there are products. */
  function ListCount(opts: ListOptions, c: Category): string
  {
    if opts.products && c.total > 0 then " (" + IntToString(c.total) + ")" else ""
  }

  /**
   * The tag that moves the nested list from the depth `prev` of the category
   * before to category `c`: one opening tag when it is deeper, one closing
   * tag when it is shallower, however many levels lie between.
   */
  function LevelChange(c: Category, prev: nat, opts: ListOptions): seq<Markup>
  {
    if opts.hierarchy && c.depth > prev then [OpenChildren]
    else if opts.hierarchy && c.depth < prev then [CloseList]
    else []
  }

  /** The item for category `c`, when it is shown. */
  function ItemPiece(c: Category, opts: ListOptions): seq<Markup>
  {
    if Shown(opts, c) then [ListItem(CategoryLink(opts, c), c.name, ListCount(opts, c))] else []
  }

  /**
   * A category gets an item exactly when all are shown, it has products, it
   * is smart or it has children; the item carries a count exactly when
   * counts are on and it has products.
   */
  lemma ListItemFilter(c: Category, opts: ListOptions)
    ensures |ItemPiece(c, opts)| == if opts.showall || c.total > 0 || c.smart || c.children then 1 else 0
    ensures ListCount(opts, c) != "" <==> opts.products && c.total > 0
  {
  }

  /** The pieces the nested list emits for category `c` after a category at depth `prev`. */
  function ListPieces(c: Category, prev: nat, opts: ListOptions): seq<Markup>
  {
    LevelChange(c, prev, opts) + ItemPiece(c, opts)
  }

  /** The pieces of the nested list for the first `n` categories. */
  function ListBody(cats: seq<Category>, n: nat, opts: ListOptions): seq<Markup>
    requires n <= |cats|
  {
    if n == 0 then [] else ListBody(cats, n - 1, opts) + ListPieces(cats[n - 1], DepthBefore(cats, n - 1), opts)
  }

  /** The closing tags after the last category: one per level of its depth when the list is nested. */
  function ListTail(cats: seq<Category>, opts: ListOptions): seq<Markup>
  {
    if opts.hierarchy then Copies(CloseList, DepthBefore(cats, |cats|)) else []
  }

  /** The product count a menu option carries when counts are on, even when it is 0. */
  function MenuCount(opts: ListOptions, c: Category): string
  {
    if opts.products then "&nbsp;&nbsp;(" + IntToString(c.total) + ")" else ""
  }

  /** The option a drop-down menu emits for a category, padded by three spaces per level. */
  function MenuPiece(c: Category, opts: ListOptions): Markup
  {
    MenuOption(CategoryLink(opts, c), Repeat("&nbsp;", c.depth * 3), c.name, MenuCount(opts, c))
  }

  /** The options of the drop-down menu for the first `n` categories. */
  function MenuBody(cats: seq<Category>, n: nat, opts: ListOptions): (r: seq<Markup>)
    requires n <= |cats|
    ensures |r| == n
  {
    if n == 0 then [] else MenuBody(cats, n - 1, opts) + [MenuPiece(cats[n - 1], opts)]
  }

  const MenuHead: string := "<form><select name=\"shopp_cats\" id=\"shopp-categories-menu\"><option value=\"\">Select category&hellip;</option>"

  const MenuScript: string :=
    "</select></form><script type=\"text/javascript\">"
    + "var menu = document.getElementById('shopp-categories-menu');"
    + "if (menu) {" + "\tmenu.onchange = function () {"
    + "\t\tdocument.location.href = this.options[this.selectedIndex].value;"
    + "\t}" + "}" + "</script>"

  /** The drop-down menu: a form around one option per category, then the script that follows the chosen link. */
  function MenuText(cats: seq<Category>, opts: ListOptions): string
  {
    MenuHead + RenderAll(MenuBody(cats, |cats|, opts)) + MenuScript
  }

  /** The nested list: every category's pieces, then the closing tags for the levels still open. */
  function ListText(cats: seq<Category>, opts: ListOptions): string
  {
    "<ul>" + RenderAll(ListBody(cats, |cats|, opts) + ListTail(cats, opts)) + "</ul>"
  }

  /** The `category-list` tag over the loaded categories, in tree order. */
  method CategoryList(cats: seq<Category>, opts: ListOptions) returns (s: string)
    ensures s == Title(opts.title) + (if opts.dropdown then MenuText(cats, opts) else ListText(cats, opts))
  {
    var title := opts.title;
    if title == "" || title == "0" {
      title := "";
    }
    var markup;
    if opts.dropdown {
      markup := DropdownMenu(cats, opts);
    } else {
      markup := NestedList(cats, opts);
    }
    s := title + markup;
  }

  /** The drop-down form of the list: a menu with one option per category and a script that follows the chosen link. */
  method DropdownMenu(cats: seq<Category>, opts: ListOptions) returns (s: string)
    ensures s == MenuText(cats, opts)
  {
    var options := "";
    var i := 0;
    while i < |cats|
      invariant 0 <= i <= |cats|
      invariant options == RenderAll(MenuBody(cats, i, opts))
    {
      var category := cats[i];
      var option := MenuEntry(category, opts);
      assert MenuBody(cats, i + 1, opts)[..i] == MenuBody(cats, i, opts);
      options := options + option;
      i := i + 1;
    }
    s := MenuHead + options + MenuScript;
  }

  /** One option of the drop-down menu. */
  method MenuEntry(category: Category, opts: ListOptions) returns (e: string)
    ensures e == Render(MenuPiece(category, opts))
  {
    var padding := Repeat("&nbsp;", category.depth * 3);
    var link := CategoryLink(opts, category);
    var products := "";
    if opts.products {
      products := "&nbsp;&nbsp;(" + IntToString(category.total) + ")";
    }
    e := OptionLine(link, padding, category.name, products);
  }

  /** The nested form of the list, closing whatever levels are still open after the last category. */
  method NestedList(cats: seq<Category>, opts: ListOptions) returns (s: string)
    ensures s == ListText(cats, opts)
  {
    var body := "";
    var depth: nat := 0;
    var i := 0;
    while i < |cats|
      invariant 0 <= i <= |cats|
      invariant depth == DepthBefore(cats, i)
      invariant body == RenderAll(ListBody(cats, i, opts))
    {
      var category := cats[i];
      var entry := ListEntry(category, depth, opts);
      RenderAllAppend(ListBody(cats, i, opts), ListPieces(category, depth, opts));
      body := body + entry;
      depth := category.depth;
      i := i + 1;
    }
    var tail := "";
    if opts.hierarchy {
      var k := 0;
      while k < depth
        invariant 0 <= k <= depth
        invariant tail == RenderAll(Copies(CloseList, k))
      {
        assert Copies(CloseList, k + 1)[..k] == Copies(CloseList, k);
        tail := tail + ListClose;
        k := k + 1;
      }
    }
    RenderAllAppend(ListBody(cats, |cats|, opts), ListTail(cats, opts));
    s := "<ul>" + (body + tail) + "</ul>";
  }

  /** The text of a level change: the opening tag, the closing tag or nothing. */
  lemma LevelChangeText(c: Category, prev: nat, opts: ListOptions)
    ensures RenderAll(LevelChange(c, prev, opts))
      == if opts.hierarchy && c.depth > prev then ChildrenOpen
         else if opts.hierarchy && c.depth < prev then ListClose
         else ""
  {
    var a := LevelChange(c, prev, opts);
    if a != [] {
      RenderOne(a[0]);
    }
  }

  /** The text of a category's item, or nothing when it is not shown. */
  lemma ItemPieceText(c: Category, opts: ListOptions)
    ensures RenderAll(ItemPiece(c, opts)) == if Shown(opts, c) then ItemLine(CategoryLink(opts, c), c.name, ListCount(opts, c)) else ""
  {
    var d := ItemPiece(c, opts);
    if d != [] {
      RenderOne(d[0]);
    }
  }

  /** What the nested list emits for one category after one at depth `depth`. */
  method ListEntry(category: Category, depth: nat, opts: ListOptions) returns (e: string)
    ensures e == RenderAll(ListPieces(category, depth, opts))
  {
    var open := "";
    if opts.hierarchy && category.depth > depth {
      open := ChildrenOpen;
    }
    var close := "";
    if opts.hierarchy && category.depth < depth {
      close := ListClose;
    }
    var link := CategoryLink(opts, category);
    var products := "";
    if opts.products && category.total > 0 {
      products := " (" + IntToString(category.total) + ")";
    }
    var item := "";
    if opts.showall || category.total > 0 || category.smart || category.children {
      item := ItemLine(link, category.name, products);
    }
    LevelChangeText(category, depth, opts);
    ItemPieceText(category, opts);
    RenderAllAppend(LevelChange(category, depth, opts), ItemPiece(category, opts));
    assert open + close == RenderAll(LevelChange(category, depth, opts));
    e := open + close + item;
  }

  // ---------------------------------------------------------------------
  // Properties of the category list
  // ---------------------------------------------------------------------

  /** The list items among some pieces, in order. */
  function Items(ms: seq<Markup>): (r: seq<Markup>)
    ensures forall i :: 0 <= i < |r| ==> r[i].ListItem?
  {
    if ms == [] then []
    else Items(ms[..|ms| - 1]) + (if ms[|ms| - 1].ListItem? then [ms[|ms| - 1]] else [])
  }

  /** How many times a piece occurs among some pieces. */
  function Count(ms: seq<Markup>, m: Markup): nat
  {
    if ms == [] then 0 else Count(ms[..|ms| - 1], m) + if ms[|ms| - 1] == m then 1 else 0
  }

  lemma {:induction false} ItemsAppend(ms: seq<Markup>, extra: seq<Markup>)
    ensures Items(ms + extra) == Items(ms) + Items(extra)
    decreases |extra|
  {
    if extra == [] {
      assert ms + extra == ms;
    } else {
      var init := extra[..|extra| - 1];
      assert (ms + extra)[..|ms + extra| - 1] == ms + init;
      assert (ms + extra)[|ms + extra| - 1] == extra[|extra| - 1];
      ItemsAppend(ms, init);
    }
  }

  lemma {:induction false} CountAppend(ms: seq<Markup>, extra: seq<Markup>, m: Markup)
    ensures Count(ms + extra, m) == Count(ms, m) + Count(extra, m)
    decreases |extra|
  {
    if extra == [] {
      assert ms + extra == ms;
    } else {
      assert (ms + extra)[..|ms + extra| - 1] == ms + extra[..|extra| - 1];
      CountAppend(ms, extra[..|extra| - 1], m);
    }
  }

  /** What one more piece adds to the items and to the counts of opening and closing tags. */
  lemma AppendOne(ms: seq<Markup>, m: Markup)
    ensures Items(ms + [m]) == Items(ms) + if m.ListItem? then [m] else []
    ensures Count(ms + [m], OpenChildren) == Count(ms, OpenChildren) + if m == OpenChildren then 1 else 0
    ensures Count(ms + [m], CloseList) == Count(ms, CloseList) + if m == CloseList then 1 else 0
  {
    assert (ms + [m])[..|ms + [m]| - 1] == ms;
  }

  /** What the tag for a change of depth adds: no item, and at most one opening or closing tag. */
  lemma LevelChangeStep(body: seq<Markup>, c: Category, prev: nat, opts: ListOptions)
    ensures Items(body + LevelChange(c, prev, opts)) == Items(body)
    ensures Count(body + LevelChange(c, prev, opts), OpenChildren)
      == Count(body, OpenChildren) + if opts.hierarchy && c.depth > prev then 1 else 0
    ensures Count(body + LevelChange(c, prev, opts), CloseList)
      == Count(body, CloseList) + if opts.hierarchy && c.depth < prev then 1 else 0
  {
    var a := LevelChange(c, prev, opts);
    if a == [] {
      assert body + a == body;
    } else {
      AppendOne(body, a[0]);
      assert a == [a[0]];
    }
  }

  /** What the item for a category adds: the item itself when it is shown, and no tag. */
  lemma ItemStep(body: seq<Markup>, c: Category, opts: ListOptions)
    ensures Items(body + ItemPiece(c, opts)) == Items(body) + ItemPiece(c, opts)
    ensures Count(body + ItemPiece(c, opts), OpenChildren) == Count(body, OpenChildren)
    ensures Count(body + ItemPiece(c, opts), CloseList) == Count(body, CloseList)
  {
    var d := ItemPiece(c, opts);
    if d == [] {
      assert body + d == body;
    } else {
      AppendOne(body, d[0]);
      assert d == [d[0]];
    }
  }

  /** What one category adds to the items and to the opening and closing tags. */
  lemma PiecesStep(body: seq<Markup>, c: Category, prev: nat, opts: ListOptions)
    ensures Items(body + ListPieces(c, prev, opts)) == Items(body) + ItemPiece(c, opts)
    ensures Count(body + ListPieces(c, prev, opts), OpenChildren)
      == Count(body, OpenChildren) + if opts.hierarchy && c.depth > prev then 1 else 0
    ensures Count(body + ListPieces(c, prev, opts), CloseList)
      == Count(body, CloseList) + if opts.hierarchy && c.depth < prev then 1 else 0
  {
    var a := LevelChange(c, prev, opts);
    var d := ItemPiece(c, opts);
    Associative(body, a, d);
    LevelChangeStep(body, c, prev, opts);
    ItemStep(body + a, c, opts);
  }

  /** The items the first `n` categories should give: one per shown category, in order. */
  function ShownItems(cats: seq<Category>, n: nat, opts: ListOptions): seq<Markup>
    requires n <= |cats|
  {
    if n == 0 then []
    else
      ShownItems(cats, n - 1, opts) + ItemPiece(cats[n - 1], opts)
  }

  /** How many of the first `n` categories are deeper than the one before them. */
  function Rises(cats: seq<Category>, n: nat): nat
    requires n <= |cats|
  {
    if n == 0 then 0 else Rises(cats, n - 1) + if cats[n - 1].depth > DepthBefore(cats, n - 1) then 1 else 0
  }

  /** How many of the first `n` categories are shallower than the one before them. */
  function Falls(cats: seq<Category>, n: nat): nat
    requires n <= |cats|
  {
    if n == 0 then 0 else Falls(cats, n - 1) + if cats[n - 1].depth < DepthBefore(cats, n - 1) then 1 else 0
  }

  /** The nested list has an item for exactly the shown categories, in their order. */
  lemma {:induction false} ListBodyItems(cats: seq<Category>, n: nat, opts: ListOptions)
    requires n <= |cats|
    ensures Items(ListBody(cats, n, opts)) == ShownItems(cats, n, opts)
  {
    if n > 0 {
      ListBodyItems(cats, n - 1, opts);
      PiecesStep(ListBody(cats, n - 1, opts), cats[n - 1], DepthBefore(cats, n - 1), opts);
    }
  }

  /**
   * With `hierarchy` on the nested list opens a level at every category
   * deeper than the one before and closes one at every category shallower;
   * without it it opens and closes none.
   */
  lemma {:induction false} ListBodyLevels(cats: seq<Category>, n: nat, opts: ListOptions)
    requires n <= |cats|
    ensures Count(ListBody(cats, n, opts), OpenChildren) == if opts.hierarchy then Rises(cats, n) else 0
    ensures Count(ListBody(cats, n, opts), CloseList) == if opts.hierarchy then Falls(cats, n) else 0
  {
    if n > 0 {
      var body, c, prev := ListBody(cats, n - 1, opts), cats[n - 1], DepthBefore(cats, n - 1);
      assert ListBody(cats, n, opts) == body + ListPieces(c, prev, opts);
      assert Rises(cats, n) == Rises(cats, n - 1) + if c.depth > prev then 1 else 0;
      assert Falls(cats, n) == Falls(cats, n - 1) + if c.depth < prev then 1 else 0;
      ListBodyLevels(cats, n - 1, opts);
      PiecesStep(body, c, prev, opts);
    }
  }

  /** The closing tags after the last category hold no item and no opening tag. */
  lemma {:induction false} CopiesShape(k: nat)
    ensures Items(Copies(CloseList, k)) == []
    ensures Count(Copies(CloseList, k), CloseList) == k && Count(Copies(CloseList, k), OpenChildren) == 0
  {
    if k > 0 {
      CopiesShape(k - 1);
      assert Copies(CloseList, k)[..k - 1] == Copies(CloseList, k - 1);
    }
  }

  /** How far the categories climb past one level at a time, summed over the first `n`. */
  function RiseExcess(cats: seq<Category>, n: nat): nat
    requires n <= |cats|
  {
    if n == 0 then 0
    else
      var d, prev := cats[n - 1].depth, DepthBefore(cats, n - 1);
      RiseExcess(cats, n - 1) + (if d > prev + 1 then d - prev - 1 else 0)
  }

  /** How far the categories fall past one level at a time, summed over the first `n`. */
  function DropExcess(cats: seq<Category>, n: nat): nat
    requires n <= |cats|
  {
    if n == 0 then 0
    else
      var d, prev := cats[n - 1].depth, DepthBefore(cats, n - 1);
      DropExcess(cats, n - 1) + (if prev > d + 1 then prev - d - 1 else 0)
  }

  lemma StepBalance(d: nat, prev: nat)
    ensures (if d > prev then 1 else 0) + (if d > prev + 1 then d - prev - 1 else 0) + prev
      == (if d < prev then 1 else 0) + (if prev > d + 1 then prev - d - 1 else 0) + d
  {
  }

  /** The depth reached is what the rises climbed, less what the falls came down. */
  lemma {:induction false} DepthBalance(cats: seq<Category>, n: nat)
    requires n <= |cats|
    ensures Rises(cats, n) + RiseExcess(cats, n) == Falls(cats, n) + DepthBefore(cats, n) + DropExcess(cats, n)
  {
    if n > 0 {
      DepthBalance(cats, n - 1);
      StepBalance(cats[n - 1].depth, DepthBefore(cats, n - 1));
    }
  }

  lemma {:induction false} SmallSteps(cats: seq<Category>, n: nat)
    requires n <= |cats|
    requires forall i :: 0 <= i < n ==> -1 <= cats[i].depth - DepthBefore(cats, i) <= 1
    ensures RiseExcess(cats, n) == 0 && DropExcess(cats, n) == 0
  {
    if n > 0 {
      SmallSteps(cats, n - 1);
      assert -1 <= cats[n - 1].depth - DepthBefore(cats, n - 1) <= 1;
    }
  }

  /**
   * The whole nested list, closing tags after the last category included,
   * has an item for exactly the shown categories, in order. With `hierarchy`
   * on it opens more levels than it closes by what the categories fall past
   * one level at a time (a fall closes one level however deep it is), and
   * fewer by what they climb past one; so it is balanced when every step
   * between neighbours (and from the top to the first) is at most one level.
   * Without `hierarchy` it opens and closes none.
   */
  lemma ListNesting(cats: seq<Category>, opts: ListOptions)
    ensures var ms := ListBody(cats, |cats|, opts) + ListTail(cats, opts);
      Items(ms) == ShownItems(cats, |cats|, opts)
    ensures var ms := ListBody(cats, |cats|, opts) + ListTail(cats, opts);
      opts.hierarchy ==>
      Count(ms, OpenChildren) + RiseExcess(cats, |cats|) == Count(ms, CloseList) + DropExcess(cats, |cats|)
    ensures var ms := ListBody(cats, |cats|, opts) + ListTail(cats, opts);
      opts.hierarchy && (forall i :: 0 <= i < |cats| ==> -1 <= cats[i].depth - DepthBefore(cats, i) <= 1) ==>
      Count(ms, OpenChildren) == Count(ms, CloseList)
    ensures var ms := ListBody(cats, |cats|, opts) + ListTail(cats, opts);
      !opts.hierarchy ==> Count(ms, OpenChildren) == 0 && Count(ms, CloseList) == 0
  {
    ListTotals(cats, opts);
    DepthBalance(cats, |cats|);
    if forall i :: 0 <= i < |cats| ==> -1 <= cats[i].depth - DepthBefore(cats, i) <= 1 {
      SmallSteps(cats, |cats|);
    }
  }

  /** The items and the tag counts of the whole nested list. */
  lemma ListTotals(cats: seq<Category>, opts: ListOptions)
    ensures var ms := ListBody(cats, |cats|, opts) + ListTail(cats, opts);
      && Items(ms) == ShownItems(cats, |cats|, opts)
      && Count(ms, OpenChildren) == (if opts.hierarchy then Rises(cats, |cats|) else 0)
      && Count(ms, CloseList) == (if opts.hierarchy then Falls(cats, |cats|) + DepthBefore(cats, |cats|) else 0)
  {
    var body := ListBody(cats, |cats|, opts);
    var tail := ListTail(cats, opts);
    ListBodyItems(cats, |cats|, opts);
    ListBodyLevels(cats, |cats|, opts);
    CopiesShape(DepthBefore(cats, |cats|));
    if !opts.hierarchy {
      assert body + tail == body;
    } else {
      ItemsAppend(body, tail);
      CountAppend(body, tail, OpenChildren);
      CountAppend(body, tail, CloseList);
    }
  }

  /** The drop-down menu has one option per category, in order, whatever its product count. */
  lemma MenuOptions(cats: seq<Category>, n: nat, opts: ListOptions)
    requires n <= |cats|
    ensures var r := MenuBody(cats, n, opts); forall i :: 0 <= i < n ==> r[i] == MenuPiece(cats[i], opts)
  {
    forall i | 0 <= i < n ensures MenuBody(cats, n, opts)[i] == MenuPiece(cats[i], opts) {
      MenuBodyAt(cats, n, opts, i);
    }
  }

  lemma {:induction false} MenuBodyAt(cats: seq<Category>, n: nat, opts: ListOptions, i: nat)
    requires i < n <= |cats|
    ensures MenuBody(cats, n, opts)[i] == MenuPiece(cats[i], opts)
  {
    if i < n - 1 {
      MenuBodyAt(cats, n - 1, opts, i);
      var prev := MenuBody(cats, n - 1, opts);
      assert MenuBody(cats, n, opts) == prev + [MenuPiece(cats[n - 1], opts)];
      assert MenuBody(cats, n, opts)[i] == prev[i];
    }
  }

  /** A menu option is padded by three `&nbsp;` entities per level of depth. */
  lemma MenuPadding(c: Category, opts: ListOptions)
    ensures |MenuPiece(c, opts).padding| == 18 * c.depth
  {
    assert |"&nbsp;"| == 6;
  }
}
