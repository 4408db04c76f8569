/** Rewriting references one old-to-new pair at a time against substituting them all at once. */
module Substitution {
  import opened Options

  datatype Pair = Pair(old_: string, new_: string)

  /** A nullable reference column's value. */
  type Ref = Option<string>

  /** `UPDATE ... SET column = new WHERE column = old`, skipped when nothing would change. */
  function UpdateOne(p: Pair, r: Ref): Ref {
    if p.old_ != p.new_ && r == Some(p.old_) then Some(p.new_) else r
  }

  /** The updates applied one after the other. */
  function Rewrite(pairs: seq<Pair>, r: Ref): Ref {
    if pairs == [] then r else Rewrite(pairs[1..], UpdateOne(pairs[0], r))
  }

  /** The updates read as one mapping. */
  function Substitute(pairs: seq<Pair>, r: Ref): Ref {
    if pairs == [] then r
    else if r == Some(pairs[0].old_) then Some(pairs[0].new_)
    else Substitute(pairs[1..], r)
  }

  predicate DistinctOlds(pairs: seq<Pair>) {
    forall i, j :: 0 <= i < j < |pairs| ==> pairs[i].old_ != pairs[j].old_
  }

  /** No update writes an id that a later update rewrites again. */
  predicate NoChain(pairs: seq<Pair>) {
    forall i, j :: 0 <= i < j < |pairs| && pairs[i].old_ != pairs[i].new_ && pairs[j].old_ != pairs[j].new_
      ==> pairs[i].new_ != pairs[j].old_
  }

  /** Rewriting pair by pair gives every value what substituting all at once gives it. */
  ghost predicate Simultaneous(pairs: seq<Pair>) {
    forall r :: Rewrite(pairs, r) == Substitute(pairs, r)
  }

  lemma {:induction false} RewriteUnnamed(pairs: seq<Pair>, r: Ref)
    requires forall j :: 0 <= j < |pairs| ==> pairs[j].old_ == pairs[j].new_ || r != Some(pairs[j].old_)
    ensures Rewrite(pairs, r) == r
  {
    if pairs != [] { RewriteUnnamed(pairs[1..], r); }
  }

  lemma {:induction false} SubstituteUnnamed(pairs: seq<Pair>, r: Ref)
    requires forall j :: 0 <= j < |pairs| ==> r != Some(pairs[j].old_)
    ensures Substitute(pairs, r) == r
  {
    if pairs != [] { SubstituteUnnamed(pairs[1..], r); }
  }

  lemma {:induction false} SubstituteNamed(pairs: seq<Pair>, j: nat)
    requires DistinctOlds(pairs) && j < |pairs|
    ensures Substitute(pairs, Some(pairs[j].old_)) == Some(pairs[j].new_)
  {
    if j > 0 { SubstituteNamed(pairs[1..], j - 1); }
  }

  lemma {:induction false} NoChainMeansSimultaneous(pairs: seq<Pair>, r: Ref)
    requires DistinctOlds(pairs) && NoChain(pairs)
    ensures Rewrite(pairs, r) == Substitute(pairs, r)
  {
    if pairs != [] {
      var p := pairs[0];
      if r == Some(p.old_) {
        RewriteUnnamed(pairs[1..], UpdateOne(p, r));
      } else {
        NoChainMeansSimultaneous(pairs[1..], r);
      }
    }
  }

  lemma {:induction false} SimultaneousMeansNoChain(pairs: seq<Pair>)
    requires DistinctOlds(pairs) && Simultaneous(pairs)
    ensures NoChain(pairs)
  {
    if pairs != [] {
      var p, rest := pairs[0], pairs[1..];
      forall r ensures Rewrite(rest, r) == Substitute(rest, r) {
        if r == Some(p.old_) {
          RewriteUnnamed(rest, r);
          SubstituteUnnamed(rest, r);
        } else {
          assert Rewrite(pairs, r) == Substitute(pairs, r);
        }
      }
      SimultaneousMeansNoChain(rest);
      forall j | 0 < j < |pairs| && p.old_ != p.new_ && pairs[j].old_ != pairs[j].new_
        ensures p.new_ != pairs[j].old_
      {
        assert Rewrite(pairs, Some(p.old_)) == Substitute(pairs, Some(p.old_));
        if p.new_ == pairs[j].old_ { SubstituteNamed(rest, j - 1); }
      }
    }
  }

  /** Rewriting pair by pair is simultaneous substitution exactly when no update feeds a later one. */
  lemma SequentialIsSimultaneousIffNoChain(pairs: seq<Pair>)
    requires DistinctOlds(pairs)
    ensures Simultaneous(pairs) <==> NoChain(pairs)
  {
    if NoChain(pairs) {
      forall r ensures Rewrite(pairs, r) == Substitute(pairs, r) { NoChainMeansSimultaneous(pairs, r); }
    }
    if Simultaneous(pairs) { SimultaneousMeansNoChain(pairs); }
  }

  /** Two users whose ids were swapped between databases are both rewritten to the same one. */
  lemma SwappedIdsCollapse(a: string, b: string)
    requires a != b
    ensures var pairs := [Pair(a, b), Pair(b, a)];
            && Rewrite(pairs, Some(a)) == Some(a) && Rewrite(pairs, Some(b)) == Some(a)
            && Substitute(pairs, Some(a)) == Some(b) && Substitute(pairs, Some(b)) == Some(a)
  {
    var pairs := [Pair(a, b), Pair(b, a)];
    var rest := pairs[1..];
    assert rest == [Pair(b, a)] && rest[1..] == [];
    assert Rewrite(rest[1..], Some(a)) == Some(a);
    assert Rewrite(rest, Some(b)) == Some(a);
    assert Substitute(rest, Some(b)) == Some(a);
  }

  /** Every target that is itself rewritten is rewritten to itself. */
  predicate TargetsSettled(pairs: seq<Pair>) {
    forall i, j :: 0 <= i < |pairs| && 0 <= j < |pairs| && pairs[i].new_ == pairs[j].old_
      ==> pairs[j].new_ == pairs[j].old_
  }

  /** With settled targets, rewriting is substitution and doing it twice is doing it once. */
  lemma SettledRewriteIsIdempotent(pairs: seq<Pair>, r: Ref)
    requires DistinctOlds(pairs) && TargetsSettled(pairs)
    ensures Rewrite(pairs, r) == Substitute(pairs, r)
    ensures Rewrite(pairs, Rewrite(pairs, r)) == Rewrite(pairs, r)
  {
    assert NoChain(pairs);
    NoChainMeansSimultaneous(pairs, r);
    if i :| 0 <= i < |pairs| && r == Some(pairs[i].old_) {
      SubstituteNamed(pairs, i);
      RewriteUnnamed(pairs, Some(pairs[i].new_));
    } else {
      RewriteUnnamed(pairs, r);
    }
  }
}
