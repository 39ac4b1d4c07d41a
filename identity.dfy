/**
 * Account identifiers and their case normalisation.
 *
 * Every comparison the reconciler makes is between lowercased logins: the
 * maintainer and internal-team lists are lowercased when the configuration
 * is flattened, and the collaborator and organisation-member logins the
 * host reports are lowercased when they are read.
 */
module Identity {

  /** An account login as the host or the configuration spells it. */
  type Login = string

  predicate IsUpperChar(c: char) {
    'A' <= c <= 'Z'
  }

  /** ASCII lowercasing of one character; every other character is kept. */
  function LowerChar(c: char): (r: char)
    ensures !IsUpperChar(r)
    ensures IsUpperChar(c) ==> r as int == c as int + 32
    ensures !IsUpperChar(c) ==> r == c
  {
    if IsUpperChar(c) then (c as int - 'A' as int + 'a' as int) as char else c
  }

  /** The lowercased form of a login (`str.lower()` on ASCII text). */
  function Lower(s: Login): (r: Login) {
    seq(|s|, i requires 0 <= i < |s| => LowerChar(s[i]))
  }

  /** A login that lowercasing leaves as it is. */
  predicate IsLower(s: Login) {
    forall i :: 0 <= i < |s| ==> !IsUpperChar(s[i])
  }

  predicate AllLower(xs: set<Login>) {
    forall x :: x in xs ==> IsLower(x)
  }

  predicate AllLowerSeq(xs: seq<Login>) {
    forall i :: 0 <= i < |xs| ==> IsLower(xs[i])
  }

  /** The lowercased logins of a host listing: `{u.login.lower() for u in ...}`. */
  function LowerSet(xs: set<Login>): (r: set<Login>) {
    set x | x in xs :: Lower(x)
  }

  /** The set of the logins a list holds: `set(xs)`. */
  function Elements(xs: seq<Login>): (r: set<Login>) {
    set x | x in xs
  }

  lemma ElementsAppend(xs: seq<Login>, ys: seq<Login>)
    ensures Elements(xs + ys) == Elements(xs) + Elements(ys)
  {
  }

  /** Lowercasing each element of a list, keeping order and duplicates. */
  function LowerEach(xs: seq<Login>): (r: seq<Login>) {
    seq(|xs|, i requires 0 <= i < |xs| => Lower(xs[i]))
  }

  lemma LowerIsLower(s: Login)
    ensures IsLower(Lower(s))
    ensures |Lower(s)| == |s|
  {
  }

  lemma LowerOfLower(s: Login)
    requires IsLower(s)
    ensures Lower(s) == s
  {
    assert forall i :: 0 <= i < |s| ==> Lower(s)[i] == s[i];
  }

  lemma LowerIdempotent(s: Login)
    ensures Lower(Lower(s)) == Lower(s)
  {
    LowerIsLower(s);
    LowerOfLower(Lower(s));
  }

  /** A set of logins that are already lowercase is its own lowercased image. */
  lemma LowerSetOfLower(xs: set<Login>)
    requires AllLower(xs)
    ensures LowerSet(xs) == xs
  {
    forall x | x in xs ensures Lower(x) == x {
      LowerOfLower(x);
    }
  }

  lemma LowerSetUnion(xs: set<Login>, ys: set<Login>)
    ensures LowerSet(xs + ys) == LowerSet(xs) + LowerSet(ys)
  {
  }

  lemma LowerEachIsLower(xs: seq<Login>)
    ensures |LowerEach(xs)| == |xs|
    ensures AllLowerSeq(LowerEach(xs))
  {
    forall i | 0 <= i < |xs| ensures IsLower(LowerEach(xs)[i]) {
      LowerIsLower(xs[i]);
    }
  }
}
