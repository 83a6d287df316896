/**
 * How the 1.2.0 migration (`upgrade_120`) finds a free slug for a legacy
 * category or tag: the legacy slug (sanitised by the host when it contains
 * a space) if no term has it yet, otherwise the first of `slug-2`,
 * `slug-3`, … that no term has.
 */
module TermSlugs {
  import opened Strings

  /** The probe `slug-n`. */
  function Alternate(slug: string, n: nat): string
  {
    slug + "-" + NatToString(n)
  }

  /** Different suffixes give different probes, so the probing loop never repeats itself. */
  lemma AlternateDistinct(slug: string, j: nat, k: nat)
    requires j != k
    ensures Alternate(slug, j) != Alternate(slug, k)
  {
    NatToStringRoundTrip(j);
    NatToStringRoundTrip(k);
    assert Alternate(slug, j)[|slug| + 1..] == NatToString(j);
    assert Alternate(slug, k)[|slug| + 1..] == NatToString(k);
  }

  /** The slug a legacy term starts from: kept unless it contains a space, then sanitised by the host. */
  function BaseSlug(slug: string, sanitize: string -> string): string
  {
    if !Contains(slug, " ") then slug else sanitize(slug)
  }

  /** The probes `slug-2` … `slug-(m-1)` tried before `slug-m`. */
  ghost function Probes(slug: string, m: nat): set<string>
  {
    set k: nat | 2 <= k < m :: Alternate(slug, k)
  }

  /** Each probe is new: `slug-m` is none of the earlier probes. */
  lemma ProbesGrow(slug: string, m: nat)
    requires m >= 2
    ensures Alternate(slug, m) !in Probes(slug, m)
    ensures Probes(slug, m + 1) == Probes(slug, m) + {Alternate(slug, m)}
  {
    forall k: nat | 2 <= k < m ensures Alternate(slug, k) != Alternate(slug, m) {
      AlternateDistinct(slug, k, m);
    }
    assert Alternate(slug, m) in Probes(slug, m + 1);
  }

  /**
   * The first free probe from `slug-n` on, when every probe before it is
   * taken. It terminates because each probe is a new element of the finite
   * set `used`.
   */
  function FirstFree(slug: string, used: set<string>, n: nat): string
    requires n >= 2 && Probes(slug, n) <= used
    decreases |used - Probes(slug, n)|
  {
    if Alternate(slug, n) !in used then Alternate(slug, n)
    else
      ProbesGrow(slug, n);
      var rest := used - Probes(slug, n);
      assert Alternate(slug, n) in rest;
      assert used - Probes(slug, n + 1) == rest - {Alternate(slug, n)};
      FirstFree(slug, used, n + 1)
  }

  /** The slug the migration picks for `base` when `used` are the slugs already in the terms table. */
  function ChosenSlug(base: string, used: set<string>): string
  {
    if base !in used then base
    else
      assert Probes(base, 2) == {};
      FirstFree(base, used, 2)
  }

  /**
   * `r` is a correct choice of slug for `base` against `used`: unused, and
   * `base` itself if that is free, otherwise `base-n` for the smallest
   * `n >= 2` whose probe is free.
   */
  ghost predicate SlugChosen(base: string, used: set<string>, r: string)
  {
    && r !in used
    && (base !in used ==> r == base)
    && (base in used ==>
          exists n: nat {:trigger Alternate(base, n)} :: n >= 2 && r == Alternate(base, n)
            && forall k: nat :: 2 <= k < n ==> Alternate(base, k) in used)
  }

  /** The first free probe is unused and every probe before it is taken. */
  lemma {:induction false} FirstFreeIsFirst(slug: string, used: set<string>, n: nat) returns (m: nat)
    requires n >= 2 && Probes(slug, n) <= used
    ensures m >= n && FirstFree(slug, used, n) == Alternate(slug, m)
    ensures Alternate(slug, m) !in used && Probes(slug, m) <= used
    decreases |used - Probes(slug, n)|
  {
    if Alternate(slug, n) !in used {
      m := n;
    } else {
      ProbesGrow(slug, n);
      var rest := used - Probes(slug, n);
      assert Alternate(slug, n) in rest;
      assert used - Probes(slug, n + 1) == rest - {Alternate(slug, n)};
      m := FirstFreeIsFirst(slug, used, n + 1);
    }
  }

  /** `ChosenSlug` makes the choice `SlugChosen` describes (and, by `SlugChoiceUnique`, the only one). */
  lemma ChosenSlugCorrect(base: string, used: set<string>)
    ensures SlugChosen(base, used, ChosenSlug(base, used))
  {
    if base in used {
      assert Probes(base, 2) == {};
      var m := FirstFreeIsFirst(base, used, 2);
      forall k: nat | 2 <= k < m ensures Alternate(base, k) in used {
        assert Alternate(base, k) in Probes(base, m);
      }
    }
  }

  /** The choice is determined: there is only one slug `SlugChosen` admits. */
  lemma SlugChoiceUnique(base: string, used: set<string>, r1: string, r2: string)
    requires SlugChosen(base, used, r1) && SlugChosen(base, used, r2)
    ensures r1 == r2
  {
    if base in used {
      var n1: nat :| n1 >= 2 && r1 == Alternate(base, n1)
        && forall k: nat :: 2 <= k < n1 ==> Alternate(base, k) in used;
      var n2: nat :| n2 >= 2 && r2 == Alternate(base, n2)
        && forall k: nat :: 2 <= k < n2 ==> Alternate(base, k) in used;
      assert n1 >= n2;
      assert n2 >= n1;
    }
  }

  /**
   * The `do … while` loop of the migration: probes `slug-2`, `slug-3`, …
   * against the terms table until a probe is unused.
   */
  method ProbeSlug(slug: string, used: set<string>) returns (alternate: string)
    ensures alternate == FirstFree(slug, used, 2)
  {
    var num := 2;
    assert Probes(slug, 2) == {};
    alternate := Alternate(slug, num);
    num := num + 1;
    while alternate in used
      invariant num >= 3 && alternate == Alternate(slug, num - 1)
      invariant Probes(slug, num - 1) <= used
      invariant FirstFree(slug, used, num - 1) == FirstFree(slug, used, 2)
      decreases |used - Probes(slug, num - 1)|
    {
      ProbesGrow(slug, num - 1);
      assert used - Probes(slug, num) == (used - Probes(slug, num - 1)) - {alternate};
      alternate := Alternate(slug, num);
      num := num + 1;
    }
  }

  /** The slug a legacy term is inserted with. */
  method ChooseSlug(slug: string, used: set<string>, sanitize: string -> string) returns (r: string)
    ensures r == ChosenSlug(BaseSlug(slug, sanitize), used)
  {
    r := if !Contains(slug, " ") then slug else sanitize(slug);
    if r in used {
      r := ProbeSlug(r, used);
    }
  }
}
