/**
 * The path arithmetic of `bundle` (packages/bundler/src/bundle.ts): the two slash-trimming
 * helpers and the `publicDir` the generated `index.html` is given. Webpack, the output directory
 * and the copying of `public/` are not part of this model.
 */
module BundlePaths {

  import opened Wrappers
  import opened Text

  /** `trimLeadingSlash`: strips one leading `/` at a time until none is left. */
  function TrimLeadingSlash(p: string): (r: string)
    ensures !StartsWith(r, "/")
    ensures |r| <= |p| && p == Repeat('/', |p| - |r|) + r
    decreases |p|
  {
    if StartsWith(p, "/") then
      var r := TrimLeadingSlash(p[1..]);
      var k := |p[1..]| - |r|;
      assert p[0] == '/' by { assert p[..1] == "/"; }
      assert Repeat('/', k + 1) == ['/'] + Repeat('/', k);
      assert p == ['/'] + (Repeat('/', k) + r);
      r
    else
      p
  }

  /** `trimTrailingSlash`: strips one trailing `/` at a time until none is left. */
  function TrimTrailingSlash(p: string): (r: string)
    ensures !EndsWith(r, "/")
    ensures |r| <= |p| && p == r + Repeat('/', |p| - |r|)
    decreases |p|
  {
    if EndsWith(p, "/") then
      var r := TrimTrailingSlash(p[..|p| - 1]);
      assert p == p[..|p| - 1] + [p[|p| - 1]];
      RepeatSnoc('/', |p| - 1 - |r|);
      r
    else
      p
  }

  lemma RepeatSnoc(c: char, k: nat)
    ensures Repeat(c, k) + [c] == Repeat(c, k + 1)
  {
    assert Repeat(c, k + 1) == [c] + Repeat(c, k);
  }

  /**
   * Trimming removes slashes and nothing else: the result is the input with exactly its leading
   * (resp. trailing) slashes taken away, so trimming a second time changes nothing.
   */
  lemma TrimsAreIdempotent(p: string)
    ensures TrimLeadingSlash(TrimLeadingSlash(p)) == TrimLeadingSlash(p)
    ensures TrimTrailingSlash(TrimTrailingSlash(p)) == TrimTrailingSlash(p)
  {
  }

  /** A string of slashes only trims to the empty string, from either end. */
  lemma {:induction false} AllSlashesTrimToEmpty(n: nat)
    ensures TrimLeadingSlash(Repeat('/', n)) == ""
    ensures TrimTrailingSlash(Repeat('/', n)) == ""
  {
    if n > 0 {
      AllSlashesTrimToEmpty(n - 1);
      var s := Repeat('/', n);
      assert s[1..] == Repeat('/', n - 1);
      RepeatSnoc('/', n - 1);
      assert s[..n - 1] == Repeat('/', n - 1);
    }
  }

  /** No character other than a slash is removed: a leading non-slash stays where it was. */
  lemma {:induction false} TrimLeadingKeepsRest(k: nat, rest: string)
    requires !StartsWith(rest, "/")
    ensures TrimLeadingSlash(Repeat('/', k) + rest) == rest
    decreases k
  {
    var s := Repeat('/', k) + rest;
    if k > 0 {
      assert s[0] == '/' && s[..1] == "/";
      assert s[1..] == Repeat('/', k - 1) + rest;
      TrimLeadingKeepsRest(k - 1, rest);
    } else {
      assert s == rest;
    }
  }

  /**
   * `publicDir`: `publicPath` (`/` when not given) without its leading and trailing slashes,
   * then `public`, the empty part dropped, joined with `/` behind a leading `/`.
   */
  function PublicDir(publicPath: Option<string>): (r: string)
    ensures StartsWith(r, "/") && EndsWith(r, "public")
    ensures var base := TrimTrailingSlash(TrimLeadingSlash(OptionOr(publicPath, "/")));
      r == if base == "" then "/public" else "/" + base + "/public"
  {
    var base := TrimTrailingSlash(TrimLeadingSlash(OptionOr(publicPath, "/")));
    var parts := if base == "" then ["public"] else [base, "public"];
    assert Join(parts, "/") == if base == "" then "public" else base + "/" + "public";
    assert "/" + base + "/public" == "/" + (base + "/" + "public");
    var r := "/" + Join(parts, "/");
    assert r[|r| - 6..] == "public";
    r
  }

  /** Without a `publicPath` the base is `/`, which trims to nothing, so the directory is `/public`. */
  lemma PublicDirDefault()
    ensures PublicDir(None) == "/public"
  {
    AllSlashesTrimToEmpty(1);
    assert "/" == Repeat('/', 1);
  }

  /** A base that has no slash at either end is used as it is. */
  lemma PublicDirOfPlainBase(base: string)
    requires base != "" && !StartsWith(base, "/") && !EndsWith(base, "/")
    ensures PublicDir(Some(base)) == "/" + base + "/public"
    ensures PublicDir(Some("/" + base + "/")) == PublicDir(Some(base))
  {
    TrimLeadingKeepsRest(1, base + "/");
    assert "/" + base + "/" == Repeat('/', 1) + (base + "/");
    assert !StartsWith(base + "/", "/") by {
      assert (base + "/")[0] == base[0];
    }
    assert TrimTrailingSlash(base + "/") == base by {
      assert (base + "/")[..|base + "/"| - 1] == base;
    }
  }
}
