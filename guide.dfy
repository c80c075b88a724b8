/**
 * The formula language as the syntax guide (app/guide/page.tsx) documents
 * it: the grammar of propositions, the meaning of each connective, the
 * laws its worked examples illustrate, and the rule for variable names,
 * set against the different rule printed on the home page (app/page.tsx).
 * The repository has no parser; formulas appear here as syntax trees.
 */
module Guide {
  import opened Text

  /** `<prop>`: the constants, an atom, and the five connectives (parentheses only group). */
  datatype Prop =
    | T
    | F
    | Atom(name: string)
    | Not(p: Prop)
    | And(l: Prop, r: Prop)
    | Or(l: Prop, r: Prop)
    | Imp(l: Prop, r: Prop)
    | Iff(l: Prop, r: Prop)

  /** An assignment of truth values to atom names. */
  type Valuation = string -> bool

  /** The truth value of a proposition under a valuation. */
  function Eval(p: Prop, v: Valuation): bool
  {
    match p
    case T => true
    case F => false
    case Atom(x) => v(x)
    case Not(q) => !Eval(q, v)
    case And(a, b) => Eval(a, v) && Eval(b, v)
    case Or(a, b) => Eval(a, v) || Eval(b, v)
    case Imp(a, b) => !Eval(a, v) || Eval(b, v)
    case Iff(a, b) => Eval(a, v) == Eval(b, v)
  }

  /** The atoms a proposition mentions. */
  function Atoms(p: Prop): set<string>
  {
    match p
    case T => {}
    case F => {}
    case Atom(x) => {x}
    case Not(q) => Atoms(q)
    case And(a, b) => Atoms(a) + Atoms(b)
    case Or(a, b) => Atoms(a) + Atoms(b)
    case Imp(a, b) => Atoms(a) + Atoms(b)
    case Iff(a, b) => Atoms(a) + Atoms(b)
  }

  /** True under every valuation ("always true (valid)"). */
  ghost predicate Tautology(p: Prop)
  {
    forall v: Valuation :: Eval(p, v)
  }

  /** False under every valuation ("always false (unsatisfiable)"). */
  ghost predicate Unsatisfiable(p: Prop)
  {
    forall v: Valuation :: !Eval(p, v)
  }

  /**
   * The operator table, each row in its own words: `&` is true only if
   * both are; `|` if at least one is; `~` inverts; `->` is false only
   * when the left is true and the right false; `<->` is true when both
   * have the same value.
   */
  lemma TruthTables(a: Prop, b: Prop, v: Valuation)
    ensures Eval(And(a, b), v) <==> Eval(a, v) && Eval(b, v)
    ensures Eval(Or(a, b), v) <==> Eval(a, v) || Eval(b, v)
    ensures Eval(Not(a), v) != Eval(a, v)
    ensures !Eval(Imp(a, b), v) <==> Eval(a, v) && !Eval(b, v)
    ensures Eval(Iff(a, b), v) <==> Eval(a, v) == Eval(b, v)
  {
  }

  /**
   * Only the atoms a proposition mentions matter to its value: two
   * valuations that agree on them agree on the proposition, so a
   * reported assignment may leave other variables out.
   */
  lemma {:induction false} EvalOnlyReadsAtoms(p: Prop, v1: Valuation, v2: Valuation)
    requires forall x :: x in Atoms(p) ==> v1(x) == v2(x)
    ensures Eval(p, v1) == Eval(p, v2)
  {
    match p
    case T =>
    case F =>
    case Atom(x) =>
    case Not(q) => EvalOnlyReadsAtoms(q, v1, v2);
    case And(a, b) => EvalOnlyReadsAtoms(a, v1, v2); EvalOnlyReadsAtoms(b, v1, v2);
    case Or(a, b) => EvalOnlyReadsAtoms(a, v1, v2); EvalOnlyReadsAtoms(b, v1, v2);
    case Imp(a, b) => EvalOnlyReadsAtoms(a, v1, v2); EvalOnlyReadsAtoms(b, v1, v2);
    case Iff(a, b) => EvalOnlyReadsAtoms(a, v1, v2); EvalOnlyReadsAtoms(b, v1, v2);
  }

  /** `a & ~a`, for any proposition `a`, is false under every valuation. */
  lemma Contradiction(a: Prop)
    ensures Unsatisfiable(And(a, Not(a)))
  {
  }

  /** `a | ~a`, for any proposition `a`, is true under every valuation. */
  lemma ExcludedMiddle(a: Prop)
    ensures Tautology(Or(a, Not(a)))
  {
  }

  /** De Morgan: `~(a & b) <-> (~a | ~b)` is valid. */
  lemma DeMorgan(a: Prop, b: Prop)
    ensures Tautology(Iff(Not(And(a, b)), Or(Not(a), Not(b))))
  {
    forall v: Valuation
      ensures Eval(Iff(Not(And(a, b)), Or(Not(a), Not(b))), v)
    {
    }
  }

  /** Distributivity: `a & (b | c) <-> (a & b) | (a & c)` is valid. */
  lemma Distributive(a: Prop, b: Prop, c: Prop)
    ensures Tautology(Iff(And(a, Or(b, c)), Or(And(a, b), And(a, c))))
  {
    forall v: Valuation
      ensures Eval(Iff(And(a, Or(b, c)), Or(And(a, b), And(a, c))), v)
    {
    }
  }

  /** Double negation cancels: `~~a` has the value of `a` under every valuation. */
  lemma DoubleNegation(a: Prop)
    ensures forall v: Valuation :: Eval(Not(Not(a)), v) == Eval(a, v)
  {
  }

  /**
   * A proposition that is not unsatisfiable has a satisfying valuation
   * that is false outside its atoms (a minimal report of the assignment).
   */
  lemma MinimalWitness(p: Prop, v: Valuation) returns (w: Valuation)
    requires Eval(p, v)
    ensures Eval(p, w)
    ensures forall x :: x !in Atoms(p) ==> !w(x)
  {
    var atoms := Atoms(p);
    w := x => x in atoms && v(x);
    EvalOnlyReadsAtoms(p, v, w);
  }

  // ----- Variable names ------------------------------------------------------

  predicate IsLower(c: char)
  {
    'a' <= c <= 'z'
  }

  /** `[a-z0-9_]` */
  predicate IsAtomTail(c: char)
  {
    IsLower(c) || IsDigit(c) || c == '_'
  }

  /** The guide's rule `[a-z][a-z0-9_]*`: a lower-case letter, then letters, digits and underscores. */
  predicate IsAtom(s: string)
    ensures IsAtom(s) ==> s != "" && !IsDigit(s[0]) && s[0] != '_'
    ensures IsAtom(s) ==> forall k :: 0 <= k < |s| ==> !IsUpper(s[k]) && s[k] != '-'
  {
    |s| >= 1 && IsLower(s[0]) && forall k :: 1 <= k < |s| ==> IsAtomTail(s[k])
  }

  /** `[a-z_]` */
  predicate IsWordChar(c: char)
  {
    IsLower(c) || c == '_'
  }

  /** The length of the longest prefix of `s` made of `[a-z_]`. */
  function WordPrefix(s: string): (n: nat)
    ensures n <= |s|
    ensures forall k :: 0 <= k < n ==> IsWordChar(s[k])
    ensures n < |s| ==> !IsWordChar(s[n])
  {
    if s == [] || !IsWordChar(s[0]) then 0 else 1 + WordPrefix(s[1..])
  }

  /**
   * The home page's rule `^[a-z_]+[0-9]*$`: since no character is both a
   * letter or underscore and a digit, the letters can only end where the
   * longest run of them ends.
   */
  predicate IsHomeAtom(s: string)
    ensures IsHomeAtom(s) ==> s != "" && !IsDigit(s[0])
    ensures IsHomeAtom(s) ==> forall k :: 0 <= k < |s| ==> !IsUpper(s[k]) && s[k] != '-'
  {
    var n := WordPrefix(s);
    n >= 1 && forall k :: n <= k < |s| ==> IsDigit(s[k])
  }

  /** `s` is `[a-z_]+` for its first `i` characters and `[0-9]*` after them. */
  predicate HomeSplitAt(s: string, i: int)
  {
    1 <= i <= |s|
    && (forall k :: 0 <= k < i ==> IsWordChar(s[k]))
    && (forall k :: i <= k < |s| ==> IsDigit(s[k]))
  }

  /** `IsHomeAtom` is the regular expression: some split into a run of `[a-z_]` and a run of digits. */
  lemma HomeAtomIsRegex(s: string)
    ensures IsHomeAtom(s) <==> exists i :: HomeSplitAt(s, i)
  {
    var n := WordPrefix(s);
    if IsHomeAtom(s) {
      assert HomeSplitAt(s, n);
    }
    forall i | HomeSplitAt(s, i)
      ensures i == n
    {
      HomeSplitUnique(s, i);
    }
  }

  /** A split into letters and digits can only sit where the longest run of `[a-z_]` ends. */
  lemma HomeSplitUnique(s: string, i: int)
    requires HomeSplitAt(s, i)
    ensures i == WordPrefix(s)
  {
    var n := WordPrefix(s);
    assert i < |s| ==> IsDigit(s[i]) && !IsWordChar(s[i]);
    assert n < |s| ==> !IsWordChar(s[n]);
  }

  /** Where both rules apply to a name starting with a letter, the home-page rule is the stricter one. */
  lemma {:induction false} HomeAtomWithLetterIsAtom(s: string)
    requires IsHomeAtom(s) && IsLower(s[0])
    ensures IsAtom(s)
  {
    var n := WordPrefix(s);
    forall k | 1 <= k < |s|
      ensures IsAtomTail(s[k])
    {
      if k < n {
        assert IsWordChar(s[k]);
      } else {
        assert IsDigit(s[k]);
      }
    }
  }

  /** The valid variables the guide lists: `a`, `b1`, `var_name`, `x_123`. */
  lemma ValidExamples(a: string, b1: string, varName: string, x123: string)
    requires a == "a" && b1 == "b1" && varName == "var_name" && x123 == "x_123"
    ensures IsAtom(a) && IsAtom(b1) && IsAtom(varName) && IsAtom(x123)
  {
  }

  /** The invalid variables the guide lists: `A`, `var-name`, `1var`, `_var`. */
  lemma InvalidExamples(upper: string, dashed: string, digitFirst: string, underscored: string)
    requires upper == "A" && dashed == "var-name" && digitFirst == "1var" && underscored == "_var"
    ensures !IsAtom(upper) && !IsAtom(dashed) && !IsAtom(digitFirst) && !IsAtom(underscored)
  {
    assert !IsAtomTail(dashed[3]);
  }

  /**
   * The two rules disagree both ways: `_var` is refused by the guide and
   * accepted by the home page; `a1b` is accepted by the guide and refused
   * by the home page.
   */
  lemma RulesDisagree(underscored: string, mixed: string)
    requires underscored == "_var" && mixed == "a1b"
    ensures !IsAtom(underscored) && IsHomeAtom(underscored)
    ensures IsAtom(mixed) && !IsHomeAtom(mixed)
  {
    assert HomeSplitAt(underscored, 4);
    HomeAtomIsRegex(underscored);
    assert IsWordChar(mixed[0]) && !IsWordChar(mixed[1]) && !IsDigit(mixed[2]);
    assert WordPrefix(mixed) == 1;
  }
}
