/**
 * The storefront-page step of the 1.2.0 migration: the legacy pages that
 * embed one of the shortcodes `[catalog]`, `[cart]`, `[checkout]` and
 * `[account]` are sent to the trash, and each shortcode found records the
 * page (title and slug) under that shortcode's name, later pages winning.
 */
module LegacyPages {
  import opened Strings

  /** A page the host's query found with one of the shortcodes in its content. */
  datatype Post = Post(id: int, title: string, slug: string, content: string)

  /** What `storefront_pages` records for a page. */
  datatype PageRef = PageRef(title: string, slug: string)

  /** The storefront pages of the legacy schema. */
  const PageNames: seq<string> := ["catalog", "cart", "checkout", "account"]

  /** The shortcode `[name]` a legacy page embeds. */
  function Shortcode(name: string): string
  {
    "[" + name + "]"
  }

  /** The shortcodes searched for: `[catalog]`, `[cart]`, `[checkout]`, `[account]`. */
  const Shortcodes: seq<string> := [Shortcode("catalog"), Shortcode("cart"), Shortcode("checkout"), Shortcode("account")]

  /** `trim($code, '[]')`. */
  function PageName(code: string): string
  {
    Trim(code, {'[', ']'})
  }

  /** Trimming the brackets off `[w]` gives back `w` when `w` starts and ends with other characters. */
  lemma Bracketed(w: string)
    requires |w| >= 1 && w[0] !in {'[', ']'} && w[|w| - 1] !in {'[', ']'}
    ensures PageName(Shortcode(w)) == w
  {
    var s := Shortcode(w);
    assert s[1..] == w + "]";
    assert LTrim(s, {'[', ']'}) == w + "]";
    assert (w + "]")[..|w|] == w;
    assert RTrim(w + "]", {'[', ']'}) == RTrim(w, {'[', ']'}) == w;
  }

  /** The `k`-th shortcode is `[PageNames[k]]`, and trimming its brackets gives back `PageNames[k]`. */
  lemma ShortcodeName(k: nat)
    requires k < |Shortcodes|
    ensures Shortcodes[k] == Shortcode(PageNames[k]) && PageName(Shortcodes[k]) == PageNames[k]
  {
    Bracketed(PageNames[k]);
  }

  /** The four page names are distinct, so no shortcode overwrites another's entry within one page. */
  lemma PageNamesDistinct()
    ensures forall a, b :: 0 <= a < b < |PageNames| ==> PageNames[a] != PageNames[b]
  {
    assert PageNames[0][1] != PageNames[3][1];
  }

  /** The pages one post contributes over what earlier posts recorded, searching for the first `c` names. */
  function PostPages(pages: map<string, PageRef>, post: Post, names: seq<string>, c: nat): map<string, PageRef>
    requires c <= |names|
  {
    if c == 0 then pages
    else
      var p := PostPages(pages, post, names, c - 1);
      var name := names[c - 1];
      if Contains(post.content, Shortcode(name)) then p[name := PageRef(post.title, post.slug)] else p
  }

  /** `$pages` after the first `n` posts, searching for the shortcodes of `names`. */
  function PagesAfter(posts: seq<Post>, n: nat, names: seq<string>): map<string, PageRef>
    requires n <= |posts|
  {
    if n == 0 then map[]
    else PostPages(PagesAfter(posts, n - 1, names), posts[n - 1], names, |names|)
  }

  /** Post `i` is the last of the first `n` whose content contains `code`. */
  ghost predicate LastContaining(posts: seq<Post>, n: nat, code: string, i: int)
    requires n <= |posts|
  {
    && 0 <= i < n && Contains(posts[i].content, code)
    && forall j :: i < j < n ==> !Contains(posts[j].content, code)
  }

  /** A post records the page `name` when it contains `[name]`, and otherwise leaves the entry as it was. */
  lemma {:induction false} PostPagesLookup(pages: map<string, PageRef>, post: Post, names: seq<string>, c: nat, name: string)
    requires c <= |names|
    ensures name in names[..c] && Contains(post.content, Shortcode(name))
      ==> name in PostPages(pages, post, names, c) && PostPages(pages, post, names, c)[name] == PageRef(post.title, post.slug)
    ensures !(name in names[..c] && Contains(post.content, Shortcode(name)))
      ==> && (name in PostPages(pages, post, names, c) <==> name in pages)
          && (name in pages ==> PostPages(pages, post, names, c)[name] == pages[name])
  {
    if c > 0 {
      PostPagesLookup(pages, post, names, c - 1, name);
      assert names[..c] == names[..c - 1] + [names[c - 1]];
    }
  }

  /**
   * The pages found: the page `name` is recorded exactly when some post
   * contains `[name]`, and it is the last such post.
   */
  lemma {:induction false} PagesLookup(posts: seq<Post>, n: nat, names: seq<string>, name: string)
    requires n <= |posts| && name in names
    ensures name in PagesAfter(posts, n, names) <==> exists i :: 0 <= i < n && Contains(posts[i].content, Shortcode(name))
    ensures forall i :: LastContaining(posts, n, Shortcode(name), i) ==>
      PagesAfter(posts, n, names)[name] == PageRef(posts[i].title, posts[i].slug)
  {
    if n > 0 {
      PagesLookup(posts, n - 1, names, name);
      PostPagesLookup(PagesAfter(posts, n - 1, names), posts[n - 1], names, |names|, name);
      assert names[..|names|] == names;
      forall i | LastContaining(posts, n, Shortcode(name), i) && i < n - 1
        ensures LastContaining(posts, n - 1, Shortcode(name), i)
      { }
    }
  }

  /** Only the names searched for are ever recorded. */
  lemma {:induction false} PagesKeys(posts: seq<Post>, n: nat, names: seq<string>, name: string)
    requires n <= |posts| && name in PagesAfter(posts, n, names)
    ensures name in names
  {
    PostPagesLookup(PagesAfter(posts, n - 1, names), posts[n - 1], names, |names|, name);
    assert names[..|names|] == names;
    if name in PagesAfter(posts, n - 1, names) {
      PagesKeys(posts, n - 1, names, name);
    }
  }

  /** The shortcode loop for one page: each shortcode it contains records it under that shortcode's name. */
  method ScanPost(pages: map<string, PageRef>, post: Post) returns (pages': map<string, PageRef>)
    ensures pages' == PostPages(pages, post, PageNames, |PageNames|)
  {
    pages' := pages;
    var c := 0;
    while c < |Shortcodes|
      invariant 0 <= c <= |Shortcodes|
      invariant pages' == PostPages(pages, post, PageNames, c)
    {
      var code := Shortcodes[c];
      ShortcodeName(c);
      if Contains(post.content, code) {
        var pagename := Trim(code, {'[', ']'});
        assert pagename == PageNames[c];
        pages' := pages'[pagename := PageRef(post.title, post.slug)];
      }
      assert pages' == PostPages(pages, post, PageNames, c + 1);
      c := c + 1;
    }
  }

  /**
   * The page loop over the pages the host's query returned: every one of
   * them goes to the trash, in order, and the storefront pages are those
   * `PagesAfter` describes for the four page names.
   */
  method DetectLegacyPages(posts: seq<Post>) returns (trash: seq<int>, pages: map<string, PageRef>)
    ensures |trash| == |posts| && forall i :: 0 <= i < |posts| ==> trash[i] == posts[i].id
    ensures pages == PagesAfter(posts, |posts|, PageNames)
  {
    trash, pages := [], map[];
    var i := 0;
    while i < |posts|
      invariant 0 <= i <= |posts|
      invariant |trash| == i && forall j :: 0 <= j < i ==> trash[j] == posts[j].id
      invariant pages == PagesAfter(posts, i, PageNames)
    {
      trash := trash + [posts[i].id];
      pages := ScanPost(pages, posts[i]);
      i := i + 1;
    }
  }

  /** A storefront page is recorded exactly when some legacy page embeds its shortcode, and it is the last such page. */
  lemma StorefrontPages(posts: seq<Post>, k: nat)
    requires k < |PageNames|
    ensures PageNames[k] in PagesAfter(posts, |posts|, PageNames)
      <==> exists i :: 0 <= i < |posts| && Contains(posts[i].content, Shortcodes[k])
    ensures forall i :: LastContaining(posts, |posts|, Shortcodes[k], i) ==>
      PagesAfter(posts, |posts|, PageNames)[PageNames[k]] == PageRef(posts[i].title, posts[i].slug)
  {
    ShortcodeName(k);
    PagesLookup(posts, |posts|, PageNames, PageNames[k]);
  }
}
