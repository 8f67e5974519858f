/**
 * The command-line front end's alias folding (`processAliases`): each
 * canonical option that is falsy takes the first truthy value among its
 * aliases, and then the aliases are deleted. The options object is changed in
 * place and returned.
 */
module Cli {
  import opened JsValues

  type Options = map<string, Value>

  /** `opts[key]`: `undefined` for a missing key. */
  function Lookup(m: Options, key: string): Value
  {
    if key in m then m[key] else Undefined
  }

  /** A canonical option and its aliases, in the order `||` tries them. */
  datatype AliasGroup = AliasGroup(key: string, aliases: seq<string>)

  /** The alias groups `processAliases` folds, in the order it folds them. */
  const AliasGroups: seq<AliasGroup> := [
    AliasGroup("name", ["n"]),
    AliasGroup("site", ["website", "s", "w"]),
    AliasGroup("paths", ["path", "p"]),
    AliasGroup("interval", ["i"]),
    AliasGroup("depth", ["d"]),
    AliasGroup("startImmediately", ["immediately", "start", "r"])
  ]

  function AliasValues(m: Options, aliases: seq<string>): (r: seq<Value>)
    ensures |r| == |aliases| && forall i :: 0 <= i < |r| ==> r[i] == Lookup(m, aliases[i])
  {
    if aliases == [] then [] else [Lookup(m, aliases[0])] + AliasValues(m, aliases[1..])
  }

  /** `delete opts[a]` for each alias `a`, in order. */
  function DeleteAll(m: Options, aliases: seq<string>): (r: Options)
    ensures forall k :: k in r <==> k in m && k !in aliases
    ensures forall k :: k in r ==> r[k] == m[k]
  {
    if aliases == [] then m else DeleteAll(m - {aliases[0]}, aliases[1..])
  }

  /**
   * One block of `processAliases`: a falsy canonical option takes
   * `alias1 || alias2 || ...` and every alias is deleted; a truthy one leaves
   * the options as they are.
   */
  function FoldAlias(m: Options, g: AliasGroup): Options
    requires g.aliases != []
  {
    if Truthy(Lookup(m, g.key)) then m
    else DeleteAll(m[g.key := OrAll(AliasValues(m, g.aliases))], g.aliases)
  }

  predicate NonEmptyAliases(groups: seq<AliasGroup>)
  {
    forall i :: 0 <= i < |groups| ==> groups[i].aliases != []
  }

  /** The blocks for `groups`, run one after another. */
  function FoldGroups(m: Options, groups: seq<AliasGroup>): Options
    requires NonEmptyAliases(groups)
  {
    if groups == [] then m
    else FoldAlias(FoldGroups(m, groups[..|groups| - 1]), groups[|groups| - 1])
  }

  /** What `processAliases` leaves of the options `m`. */
  function AliasesProcessed(m: Options): Options
  {
    FoldGroups(m, AliasGroups)
  }

  /** The fold of `AliasGroups` is the six blocks of `processAliases`, one after another. */
  lemma AliasesProcessedBlocks(m: Options)
    ensures AliasesProcessed(m)
            == FoldAlias(FoldAlias(FoldAlias(FoldAlias(FoldAlias(FoldAlias(m,
                 AliasGroup("name", ["n"])),
                 AliasGroup("site", ["website", "s", "w"])),
                 AliasGroup("paths", ["path", "p"])),
                 AliasGroup("interval", ["i"])),
                 AliasGroup("depth", ["d"])),
                 AliasGroup("startImmediately", ["immediately", "start", "r"]))
  {
    FoldStep(m, 1);
    FoldStep(m, 2);
    FoldStep(m, 3);
    FoldStep(m, 4);
    FoldStep(m, 5);
    FoldStep(m, 6);
    assert AliasGroups[..6] == AliasGroups;
  }

  // ---------------------------------------------------------------------------
  // What folding promises, group by group

  /** `r` holds `k` exactly when `m` does, with the same value. */
  predicate Keeps(m: Options, r: Options, k: string)
  {
    (k in r <==> k in m) && (k in m ==> r[k] == m[k])
  }

  /** The names a group reads or writes: its key and its aliases. */
  predicate InGroup(g: AliasGroup, k: string)
  {
    k == g.key || k in g.aliases
  }

  /** The groups share no name, and no key is its own alias. */
  ghost predicate Disjoint(groups: seq<AliasGroup>)
  {
    && (forall i :: 0 <= i < |groups| ==> groups[i].key !in groups[i].aliases)
    && (forall i, j, k :: 0 <= i < j < |groups| && InGroup(groups[i], k) ==> !InGroup(groups[j], k))
  }

  /**
   * The outcome for group `g` of folding the options `m` into `r`: a truthy
   * key keeps the key and its aliases as they were; a falsy key takes the
   * first truthy alias value (or the last alias value) and the aliases are gone.
   */
  ghost predicate Folded(m: Options, r: Options, g: AliasGroup)
    requires g.aliases != []
  {
    if Truthy(Lookup(m, g.key)) then
      forall k :: InGroup(g, k) ==> Keeps(m, r, k)
    else
      g.key in r && r[g.key] == OrAll(AliasValues(m, g.aliases))
      && forall k :: k in g.aliases ==> k !in r
  }

  /** One block does what `Folded` says, and touches no name outside its group. */
  lemma FoldAliasSpec(m: Options, g: AliasGroup)
    requires g.aliases != [] && g.key !in g.aliases
    ensures Folded(m, FoldAlias(m, g), g)
    ensures forall k :: !InGroup(g, k) ==> Keeps(m, FoldAlias(m, g), k)
  {
  }

  /** A group's outcome depends only on the names in that group. */
  lemma FoldedTransfer(m: Options, m': Options, r: Options, r': Options, g: AliasGroup)
    requires g.aliases != []
    requires forall k :: InGroup(g, k) ==> Keeps(m, m', k)
    requires forall k :: InGroup(g, k) ==> Keeps(r, r', k)
    requires Folded(m', r, g)
    ensures Folded(m, r', g)
  {
    assert Keeps(m, m', g.key);
    forall i | 0 <= i < |g.aliases| ensures Lookup(m, g.aliases[i]) == Lookup(m', g.aliases[i]) {
      assert Keeps(m, m', g.aliases[i]);
    }
    assert AliasValues(m, g.aliases) == AliasValues(m', g.aliases);
    if Truthy(Lookup(m, g.key)) {
      forall k | InGroup(g, k) ensures Keeps(m, r', k) {
        assert Keeps(m', r, k) && Keeps(m, m', k) && Keeps(r, r', k);
      }
    } else {
      assert Keeps(r, r', g.key);
      forall k | k in g.aliases ensures k !in r' {
        assert Keeps(r, r', k);
      }
    }
  }

  /** An option outside every group is left as it was. */
  lemma {:induction false} FoldGroupsOutside(m: Options, groups: seq<AliasGroup>, k: string)
    requires NonEmptyAliases(groups)
    requires forall i :: 0 <= i < |groups| ==> !InGroup(groups[i], k)
    ensures Keeps(m, FoldGroups(m, groups), k)
  {
    if groups != [] {
      var n := |groups| - 1;
      var init, last := groups[..n], groups[n];
      assert forall i :: 0 <= i < n ==> init[i] == groups[i];
      FoldGroupsOutside(m, init, k);
      var mid := FoldGroups(m, init);
      assert !InGroup(last, k);
      assert FoldGroups(m, groups) == FoldAlias(mid, last);
    }
  }

  /**
   * Folding disjoint groups one after another gives each group the outcome it
   * would have on its own.
   */
  lemma {:induction false} FoldGroupsSpec(m: Options, groups: seq<AliasGroup>)
    requires NonEmptyAliases(groups) && Disjoint(groups)
    ensures forall i :: 0 <= i < |groups| ==> Folded(m, FoldGroups(m, groups), groups[i])
  {
    if groups != [] {
      var n := |groups| - 1;
      var init, last := groups[..n], groups[n];
      assert NonEmptyAliases(init) && Disjoint(init) by {
        assert forall i :: 0 <= i < n ==> init[i] == groups[i];
      }
      FoldGroupsSpec(m, init);
      var mid := FoldGroups(m, init);
      var r := FoldAlias(mid, last);
      assert last.aliases != [] && last.key !in last.aliases;
      forall i | 0 <= i < |groups| ensures Folded(m, r, groups[i]) {
        if i < n {
          assert init[i] == groups[i];
          assert Folded(m, mid, init[i]);
          FoldLaterGroup(m, mid, groups[i], last);
        } else {
          assert forall j, k :: 0 <= j < |init| && InGroup(init[j], k) ==> !InGroup(last, k) by {
            assert forall j :: 0 <= j < n ==> init[j] == groups[j];
          }
          FoldLastGroup(m, init, last);
        }
      }
      assert FoldGroups(m, groups) == r;
    }
  }

  /** Folding another, disjoint group keeps a group's outcome. */
  lemma FoldLaterGroup(m: Options, mid: Options, g: AliasGroup, last: AliasGroup)
    requires g.aliases != [] && last.aliases != [] && last.key !in last.aliases
    requires forall k :: InGroup(g, k) ==> !InGroup(last, k)
    requires Folded(m, mid, g)
    ensures Folded(m, FoldAlias(mid, last), g)
  {
    FoldAliasSpec(mid, last);
    FoldedTransfer(m, m, mid, FoldAlias(mid, last), g);
  }

  /** The group folded last sees its names as they were at the start. */
  lemma FoldLastGroup(m: Options, init: seq<AliasGroup>, last: AliasGroup)
    requires NonEmptyAliases(init) && last.aliases != [] && last.key !in last.aliases
    requires forall i, k :: 0 <= i < |init| && InGroup(init[i], k) ==> !InGroup(last, k)
    ensures Folded(m, FoldAlias(FoldGroups(m, init), last), last)
  {
    var mid := FoldGroups(m, init);
    FoldAliasSpec(mid, last);
    forall k | InGroup(last, k) ensures Keeps(m, mid, k) {
      FoldGroupsOutside(m, init, k);
    }
    FoldedTransfer(m, mid, FoldAlias(mid, last), FoldAlias(mid, last), last);
  }

  /** The names of a group, the key first. */
  function Names(g: AliasGroup): (r: seq<string>)
    ensures forall k :: InGroup(g, k) <==> k in r
  {
    [g.key] + g.aliases
  }

  lemma AliasGroupsDisjoint()
    ensures NonEmptyAliases(AliasGroups) && Disjoint(AliasGroups)
  {
    var gs := AliasGroups;
    forall i, j, k | 0 <= i < j < |gs| && InGroup(gs[i], k) ensures !InGroup(gs[j], k) {
      var a, b := Names(gs[i]), Names(gs[j]);
      forall x, y | x in a && y in b ensures x != y {
        assert |x| != |y| || x[0] != y[0] || x != y;
      }
    }
  }

  /** `processAliases` folds every group as `Folded` says and keeps every option outside them. */
  lemma AliasesProcessedSpec(m: Options)
    ensures forall i :: 0 <= i < |AliasGroups| ==> Folded(m, AliasesProcessed(m), AliasGroups[i])
    ensures forall k :: (forall i :: 0 <= i < |AliasGroups| ==> !InGroup(AliasGroups[i], k)) ==>
              Keeps(m, AliasesProcessed(m), k)
  {
    AliasGroupsDisjoint();
    FoldGroupsSpec(m, AliasGroups);
    forall k | forall i :: 0 <= i < |AliasGroups| ==> !InGroup(AliasGroups[i], k) {
      FoldGroupsOutside(m, AliasGroups, k);
    }
  }

  /** A falsy depth, `0` included, is replaced by `d`, which is then deleted. */
  lemma DepthZeroReplaced(m: Options)
    requires Lookup(m, "depth") == Num(0)
    ensures "depth" in AliasesProcessed(m) && AliasesProcessed(m)["depth"] == Lookup(m, "d")
    ensures "d" !in AliasesProcessed(m)
  {
    AliasesProcessedSpec(m);
    assert Folded(m, AliasesProcessed(m), AliasGroups[4]);
    assert AliasValues(m, ["d"]) == [Lookup(m, "d")];
  }

  /** The site comes from `website`, then `s`, then `w`: the first truthy one wins. */
  lemma SiteFromFirstTruthyAlias(m: Options)
    requires !Truthy(Lookup(m, "site"))
    ensures "site" in AliasesProcessed(m)
    ensures Truthy(Lookup(m, "website")) ==> AliasesProcessed(m)["site"] == Lookup(m, "website")
    ensures !Truthy(Lookup(m, "website")) && Truthy(Lookup(m, "s")) ==> AliasesProcessed(m)["site"] == Lookup(m, "s")
    ensures !Truthy(Lookup(m, "website")) && !Truthy(Lookup(m, "s")) ==> AliasesProcessed(m)["site"] == Lookup(m, "w")
    ensures "website" !in AliasesProcessed(m) && "s" !in AliasesProcessed(m) && "w" !in AliasesProcessed(m)
  {
    AliasesProcessedSpec(m);
    var g := AliasGroups[1];
    assert Folded(m, AliasesProcessed(m), g);
    var vs := AliasValues(m, g.aliases);
    assert vs == [Lookup(m, "website"), Lookup(m, "s"), Lookup(m, "w")];
    var r := OrAll(vs);
    if Truthy(r) {
      var i :| IsFirstTruthy(vs, i) && r == vs[i];
    }
  }

  /** A truthy canonical option leaves the options of its group untouched. */
  lemma TruthyKeyKeepsGroup(m: Options, i: int, k: string)
    requires 0 <= i < |AliasGroups|
    requires Truthy(Lookup(m, AliasGroups[i].key)) && InGroup(AliasGroups[i], k)
    ensures Keeps(m, AliasesProcessed(m), k)
  {
    AliasesProcessedSpec(m);
    assert Folded(m, AliasesProcessed(m), AliasGroups[i]);
  }

  /** The object `processAliases` receives and returns. */
  class Argv {
    var opts: Options

    constructor (opts: Options)
      ensures this.opts == opts
    {
      this.opts := opts;
    }
  }

  /** `processAliases`: folds the aliases in place and returns the same object. */
  method ProcessAliases(argv: Argv) returns (r: Argv)
    modifies argv
    ensures r == argv
    ensures argv.opts == AliasesProcessed(old(argv.opts))
  {
    var opts := argv.opts;
    opts := FoldOneAlias(opts, "name", "n");
    opts := FoldThreeAliases(opts, "site", "website", "s", "w");
    opts := FoldTwoAliases(opts, "paths", "path", "p");
    opts := FoldOneAlias(opts, "interval", "i");
    opts := FoldOneAlias(opts, "depth", "d");
    opts := FoldThreeAliases(opts, "startImmediately", "immediately", "start", "r");
    AliasesProcessedBlocks(old(argv.opts));

    argv.opts := opts;
    r := argv;
  }

  /** A block with one alias: `if (!opts.key) { opts.key = opts.a; delete opts.a; }`. */
  method FoldOneAlias(opts: Options, key: string, a: string) returns (r: Options)
    requires key != a
    ensures r == FoldAlias(opts, AliasGroup(key, [a]))
  {
    r := opts;
    if !Truthy(Lookup(r, key)) {
      r := r[key := Lookup(r, a)];
      r := r - {a};
    }
    assert AliasValues(opts, [a]) == [Lookup(opts, a)];
  }

  /** A block with two aliases: `opts.key = opts.a || opts.b`, then both are deleted. */
  method FoldTwoAliases(opts: Options, key: string, a: string, b: string) returns (r: Options)
    requires key != a && key != b
    ensures r == FoldAlias(opts, AliasGroup(key, [a, b]))
  {
    r := opts;
    if !Truthy(Lookup(r, key)) {
      r := r[key := OrAll([Lookup(r, a), Lookup(r, b)])];
      r := r - {a};
      r := r - {b};
    }
    assert AliasValues(opts, [a, b]) == [Lookup(opts, a), Lookup(opts, b)];
  }

  /** A block with three aliases: `opts.key = opts.a || opts.b || opts.c`, then all are deleted. */
  method FoldThreeAliases(opts: Options, key: string, a: string, b: string, c: string) returns (r: Options)
    requires key != a && key != b && key != c
    ensures r == FoldAlias(opts, AliasGroup(key, [a, b, c]))
  {
    r := opts;
    if !Truthy(Lookup(r, key)) {
      r := r[key := OrAll([Lookup(r, a), Lookup(r, b), Lookup(r, c)])];
      r := r - {a};
      r := r - {b};
      r := r - {c};
    }
    assert AliasValues(opts, [a, b, c]) == [Lookup(opts, a), Lookup(opts, b), Lookup(opts, c)];
  }

  /** Folding the first `n` groups is folding the first `n - 1` and then group `n - 1`. */
  lemma FoldStep(m: Options, n: int)
    requires 1 <= n <= |AliasGroups|
    ensures NonEmptyAliases(AliasGroups[..n - 1]) && NonEmptyAliases(AliasGroups[..n])
    ensures n == 1 ==> AliasGroups[n - 1] == AliasGroup("name", ["n"])
    ensures n == 2 ==> AliasGroups[n - 1] == AliasGroup("site", ["website", "s", "w"])
    ensures n == 3 ==> AliasGroups[n - 1] == AliasGroup("paths", ["path", "p"])
    ensures n == 4 ==> AliasGroups[n - 1] == AliasGroup("interval", ["i"])
    ensures n == 5 ==> AliasGroups[n - 1] == AliasGroup("depth", ["d"])
    ensures n == 6 ==> AliasGroups[n - 1] == AliasGroup("startImmediately", ["immediately", "start", "r"])
    ensures FoldGroups(m, AliasGroups[..n]) == FoldAlias(FoldGroups(m, AliasGroups[..n - 1]), AliasGroups[n - 1])
  {
    assert AliasGroups[..n][..n - 1] == AliasGroups[..n - 1];
  }
}
