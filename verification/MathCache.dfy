/** The cache of typeset math labels: bounded, and never visible in a result. */
module MathCache {
  import opened MathLabel
  import opened Options
  import opened Utf8

  const CACHE_LIMIT := 128
  const LATEX_BASE_SIZE := 10.0
  const RENDERER_GENERATION := AsBytes("tectonic-embedded-cff-v1")
  const NUL: Byte := 0

  function AsBytes(text: string): Bytes {
    seq(|text|, i requires 0 <= i < |text| => if text[i] as int < 256 then text[i] as int else 0x3F)
  }

  datatype Asset = Asset(image: int, width: real, height: real, depth: real)

  /** What the program outside the cache gives: the installed runtime, the
      compiler, which is deterministic, and the scaling of a picture. */
  datatype Renderer = Renderer(
    hasRuntime: Bytes -> bool,
    compile: (Bytes, Bytes) -> Option<Asset>,
    scale: (Asset, real) -> Asset)

  function KeyOf(formula: Bytes, root: Bytes): Bytes {
    RENDERER_GENERATION + [NUL] + formula + [NUL] + root
  }

  lemma SameSplit(a: Bytes, b: Bytes, x: Bytes, y: Bytes)
    requires a + [NUL] + x == b + [NUL] + y && NUL !in a && NUL !in b
    ensures a == b && x == y
  {
    var s, t := a + [NUL] + x, b + [NUL] + y;
    assert s[|a|] == NUL && t[|b|] == NUL;
    assert |a| == |b|;
    assert s[..|a|] == a && s[|a| + 1..] == x;
    assert t[..|b|] == b && t[|b| + 1..] == y;
  }

  lemma NoNulInFormula(formula: Bytes)
    requires ValidFormula(formula)
    ensures NUL !in formula
  {
    hide CommandsAllowed, Matched, Blank;
    var content := formula[1..|formula| - 1];
    forall i | 0 <= i < |formula|
      ensures formula[i] != NUL
    {
      if 0 < i < |formula| - 1 {
        assert content[i - 1] == formula[i];
        assert !Forbidden(content[i - 1]);
      }
    }
  }

  /** Accepted labels have different keys, whatever the runtime is called. */
  lemma KeysDiffer(formula: Bytes, root: Bytes, other: Bytes, otherRoot: Bytes)
    requires ValidFormula(formula) && ValidFormula(other) && KeyOf(formula, root) == KeyOf(other, otherRoot)
    ensures formula == other && root == otherRoot
  {
    hide ValidFormula;
    NoNulInFormula(formula);
    NoNulInFormula(other);
    var prefix := RENDERER_GENERATION + [NUL];
    var a, b := formula + [NUL] + root, other + [NUL] + otherRoot;
    assert KeyOf(formula, root) == prefix + a && KeyOf(other, otherRoot) == prefix + b;
    assert (prefix + a)[|prefix|..] == a && (prefix + b)[|prefix|..] == b;
    SameSplit(formula, other, root, otherRoot);
  }

  /** What a label is without any cache: compiled afresh and scaled. */
  ghost function Fresh(r: Renderer, formula: Bytes, fontSize: real, root: Bytes): Option<Asset> {
    if !ValidFormula(formula) || fontSize <= 0.0 || fontSize > 128.0 || !r.hasRuntime(root) then None else
      match r.compile(formula, root)
      case None => None
      case Some(base) => Some(r.scale(base, fontSize / LATEX_BASE_SIZE))
  }

  /** A key's asset is what compiling its label gives. */
  ghost predicate Compiled(r: Renderer, key: Bytes, base: Asset) {
    exists formula, root ::
      ValidFormula(formula) && key == KeyOf(formula, root) && r.compile(formula, root) == Some(base)
  }

  predicate Distinct(order: seq<Bytes>) {
    forall i, j :: 0 <= i < j < |order| ==> order[i] != order[j]
  }

  class Cache {
    const renderer: Renderer
    var items: map<Bytes, Asset>
    var order: seq<Bytes>
    var compiles: nat

    ghost predicate Valid()
      reads this
    {
      && Distinct(order) && (forall key :: key in items <==> key in order)
      && |order| <= CACHE_LIMIT && |order| <= compiles
      && forall key :: key in items ==> Compiled(renderer, key, items[key])
    }

    constructor (renderer: Renderer)
      ensures Valid() && this.renderer == renderer && order == [] && compiles == 0
    {
      this.renderer, items, order, compiles := renderer, map[], [], 0;
    }

    method ResetCache()
      modifies this
      ensures Valid() && items == map[] && order == [] && compiles == 0
    {
      items, order, compiles := map[], [], 0;
    }

    /** The cache is transparent: a label always comes out as if compiled afresh. A
        resident label is not compiled again; a new one enters last, and the oldest
        leaves a full cache. */
    method Render(formula: Bytes, fontSize: real, root: Bytes) returns (asset: Option<Asset>)
      requires Valid()
      modifies this
      ensures Valid() && asset == Fresh(renderer, formula, fontSize, root)
      ensures asset.None? || KeyOf(formula, root) in old(items) ==>
        items == old(items) && order == old(order) && compiles == old(compiles)
      ensures asset.Some? && KeyOf(formula, root) !in old(items) ==>
        compiles == old(compiles) + 1
        && order == (if |old(order)| == CACHE_LIMIT then old(order)[1..] else old(order)) + [KeyOf(formula, root)]
    {
      hide ValidFormula, KeyOf;
      var valid := Validate(formula);
      if !valid {
        return None;
      }
      if fontSize <= 0.0 || fontSize > 128.0 {
        return None;
      }
      if !renderer.hasRuntime(root) {
        return None;
      }
      var key := KeyOf(formula, root);
      if key in items {
        CompiledIs(renderer, formula, root, items[key]);
        return Some(renderer.scale(items[key], fontSize / LATEX_BASE_SIZE));
      }
      var compiled := renderer.compile(formula, root);
      if compiled.None? {
        return None;
      }
      compiles := compiles + 1;
      if |order| >= CACHE_LIMIT {
        var oldest := order[0];
        order := order[1..];
        items := items - {oldest};
      }
      assert Compiled(renderer, key, compiled.value);
      hide Compiled;
      items := items[key := compiled.value];
      order := order + [key];
      asset := Some(renderer.scale(compiled.value, fontSize / LATEX_BASE_SIZE));
    }
  }

  lemma CompiledIs(r: Renderer, formula: Bytes, root: Bytes, base: Asset)
    requires ValidFormula(formula) && Compiled(r, KeyOf(formula, root), base)
    ensures r.compile(formula, root) == Some(base)
  {
    hide ValidFormula, KeyOf;
    var other, otherRoot :|
      ValidFormula(other) && KeyOf(formula, root) == KeyOf(other, otherRoot)
      && r.compile(other, otherRoot) == Some(base);
    KeysDiffer(formula, root, other, otherRoot);
  }
}
