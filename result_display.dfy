/**
 * The result panel (components/solver/ResultDisplay.tsx): the verdict it
 * prints for a solver answer, which panel it shows for a given
 * result/error pair, and how the answer string `(name,value) ...` becomes
 * the row of coloured variable chips.
 */
module ResultDisplay {
  import opened Js
  import opened Text

  /** The answer the solver gives when no assignment exists. */
  const Sentinel: string := "(,false)"

  /** The text whose presence anywhere in an answer makes the panel say "Unsatisfiable". */
  const FalseMarker: string := ",false)"

  /** The sentinel itself contains `,false)`. */
  lemma SentinelIncludesMarker()
    ensures Includes(Sentinel, FalseMarker)
  {
    assert OccursAt(Sentinel, FalseMarker, 1);
    IncludesAt(Sentinel, FalseMarker, 1);
  }

  /**
   * The verdict of line 17: a non-empty answer with no `,false)` in it
   * that is not the sentinel. The sentinel test never decides anything,
   * since the sentinel contains `,false)`: the verdict is "non-empty and
   * free of `,false)`", so `(a,true) (b,false)` is labelled Unsatisfiable.
   */
  predicate IsSatisfiable(result: Option<string>)
    ensures IsSatisfiable(result) <==> Truthy(result) && !Includes(result.value, FalseMarker)
  {
    SentinelIncludesMarker();
    Truthy(result) && !Includes(result.value, FalseMarker) && result.value != Sentinel
  }

  /** One displayed variable: its name and the text after the comma, if there was one. */
  datatype Chip = Chip(name: string, value: Option<string>)

  /** The chip is coloured green exactly when its value text is `true`; otherwise red. */
  predicate ShowsTrue(c: Chip)
  {
    c.value == Some("true")
  }

  const Parens: set<char> := {'(', ')'}

  /** The characters a variable name shown in a chip can never contain. */
  predicate IsPlainChar(c: char)
  {
    c != ' ' && c != ',' && c != '(' && c != ')'
  }

  predicate IsPlainName(n: string)
  {
    n != "" && forall k :: 0 <= k < |n| ==> IsPlainChar(n[k])
  }

  /**
   * Lines 124-125 for one space-separated token: drop every parenthesis,
   * split on commas, take the first piece as the name and the second as
   * the value; a token whose name is empty yields no chip.
   */
  function ParseToken(token: string): (chip: Option<Chip>)
    ensures var bare := RemoveAll(token, Parens);
      && (chip.None? <==> IndexOf(bare, ',') == 0)
      && (chip.Some? ==> chip.value.name == bare[..IndexOf(bare, ',')])
      && (chip.Some? ==> (chip.value.value.None? <==> ',' !in bare))
      && (chip.Some? && ',' in bare ==>
            var rest := bare[IndexOf(bare, ',') + 1..];
            chip.value.value == Some(rest[..IndexOf(rest, ',')]))
  {
    var bare := RemoveAll(token, Parens);
    var pieces := Split(bare, ',');
    CommaPieces(bare);
    if pieces[0] == "" then None
    else Some(Chip(pieces[0], if |pieces| >= 2 then Some(pieces[1]) else None))
  }

  /** The first piece of a comma split ends at the first comma; the second ends at the next one. */
  lemma CommaPieces(bare: string)
    ensures Split(bare, ',')[0] == bare[..IndexOf(bare, ',')]
    ensures |Split(bare, ',')| >= 2 <==> ',' in bare
    ensures ',' in bare ==>
      var rest := bare[IndexOf(bare, ',') + 1..];
      Split(bare, ',')[1] == rest[..IndexOf(rest, ',')]
  {
    SplitHead(bare, ',');
    if ',' in bare {
      var rest := bare[IndexOf(bare, ',') + 1..];
      SplitTail(bare, ',');
      SplitHead(rest, ',');
      assert Split(bare, ',')[1] == Split(bare, ',')[1..][0];
    }
  }

  /** The chips of a token sequence, in token order, skipping tokens that yield none. */
  function ChipsOf(tokens: seq<string>): (chips: seq<Chip>)
    ensures |chips| <= |tokens|
    ensures forall c :: c in chips ==>
      exists k {:trigger ParseToken(tokens[k])} :: 0 <= k < |tokens| && ParseToken(tokens[k]) == Some(c)
    ensures (forall k {:trigger ParseToken(tokens[k])} :: 0 <= k < |tokens| ==> ParseToken(tokens[k]).Some?) ==>
      |chips| == |tokens| && forall k {:trigger chips[k]} :: 0 <= k < |tokens| ==> Some(chips[k]) == ParseToken(tokens[k])
  {
    if tokens == [] then []
    else
      (match ParseToken(tokens[0]) case Some(c) => [c] case None => []) + ChipsOf(tokens[1..])
  }

  /** Line 123: the answer split on single spaces, each token parsed in turn. */
  function ParseChips(result: string): (chips: seq<Chip>)
    ensures forall c :: c in chips ==> IsPlainName(c.name)
    ensures ' ' !in result ==> |chips| <= 1
  {
    ChipNamesArePlain(Split(result, ' '));
    SplitHead(result, ' ');
    ChipsOf(Split(result, ' '))
  }

  /** Every chip has a non-empty name free of spaces, commas and parentheses. */
  lemma {:induction false} ChipNamesArePlain(tokens: seq<string>)
    requires forall k :: 0 <= k < |tokens| ==> ' ' !in tokens[k]
    ensures forall c :: c in ChipsOf(tokens) ==> IsPlainName(c.name)
  {
    if tokens != [] {
      ChipNamesArePlain(tokens[1..]);
      var bare := RemoveAll(tokens[0], Parens);
      match ParseToken(tokens[0])
      case Some(c) =>
        forall k | 0 <= k < |c.name|
          ensures IsPlainChar(c.name[k])
        {
          assert c.name[k] == bare[k];
          assert bare[k] in tokens[0] by {
            RemoveAllFrom(tokens[0], Parens, k);
          }
        }
      case None =>
    }
  }

  /** Every character left after removal comes from the original string. */
  lemma {:induction false} RemoveAllFrom(s: string, drop: set<char>, k: nat)
    requires k < |RemoveAll(s, drop)|
    ensures RemoveAll(s, drop)[k] in s
  {
    if s[0] in drop {
      RemoveAllFrom(s[1..], drop, k);
    } else if k > 0 {
      RemoveAllFrom(s[1..], drop, k - 1);
    }
  }

  /** What the assignment area shows when no error is present. */
  datatype AssignmentView = NoAssignmentExists | ChipRow(chips: seq<Chip>)

  /** What the component renders. */
  datatype View =
    | Hidden
    | ErrorPanel(message: string)
    | ResultPanel(satisfiable: bool, assignment: AssignmentView, showsMeaning: bool)

  /**
   * The component for a result/error pair: nothing when both are empty
   * (line 51); the error text whenever the error is non-empty (lines 62-80,
   * 110-113); otherwise the verdict, the sentinel message or the chips
   * (lines 119-125) and the "What does this mean?" block (line 167).
   */
  function Render(result: Option<string>, error: Option<string>): (v: View)
    ensures v.Hidden? <==> !Truthy(result) && !Truthy(error)
    ensures Truthy(error) ==> v == ErrorPanel(error.value)
    ensures v.ErrorPanel? <==> Truthy(error)
    ensures v.ResultPanel? ==> !Truthy(error) && Truthy(result)
    ensures v.ResultPanel? ==> (v.satisfiable <==> IsSatisfiable(result))
    ensures v.ResultPanel? ==> (v.assignment.NoAssignmentExists? <==> result.value == Sentinel)
    ensures v.ResultPanel? && result.value != Sentinel ==> v.assignment == ChipRow(ParseChips(result.value))
    ensures v.ResultPanel? ==> (v.showsMeaning <==> result.value != Sentinel)
  {
    if !Truthy(result) && !Truthy(error) then Hidden
    else if Truthy(error) then ErrorPanel(error.value)
    else
      ResultPanel(
        IsSatisfiable(result),
        if result.value == Sentinel then NoAssignmentExists else ChipRow(ParseChips(result.value)),
        Truthy(result) && result.value != Sentinel)
  }

  /** The heading of a shown panel (line 77). */
  function Heading(v: View): string
    requires !v.Hidden?
  {
    match v
    case ErrorPanel(_) => "Error"
    case ResultPanel(sat, _, _) => if sat then "Satisfiable" else "Unsatisfiable"
  }

  /** Line 77 on the props: "Error" for an error, else the verdict of line 17. */
  lemma HeadingOfRender(result: Option<string>, error: Option<string>)
    requires Truthy(result) || Truthy(error)
    ensures Heading(Render(result, error)) ==
      if Truthy(error) then "Error" else if IsSatisfiable(result) then "Satisfiable" else "Unsatisfiable"
  {
  }

  /** A non-empty error wins whatever the result holds: heading "Error", no chips, the error text shown. */
  lemma ErrorWins(result: Option<string>, message: string)
    requires message != ""
    ensures Render(result, Some(message)) == ErrorPanel(message)
    ensures Heading(Render(result, Some(message))) == "Error"
  {
  }

  /** The sentinel answer shows the UNSAT message, no chips and no "What does this mean?" block. */
  lemma SentinelShowsNoAssignment(error: Option<string>)
    requires !Truthy(error)
    ensures Render(Some(Sentinel), error) == ResultPanel(false, NoAssignmentExists, false)
    ensures Heading(Render(Some(Sentinel), error)) == "Unsatisfiable"
  {
  }

  /**
   * The "What does this mean?" block (line 167) appears for every
   * non-sentinel answer, including answers line 17 labels Unsatisfiable:
   * the panel says "Unsatisfiable" and, below it, that the formula can be
   * made true.
   */
  lemma MeaningShownWhileUnsatisfiable(answer: string)
    requires answer == "(a,false)"
    ensures Render(Some(answer), None) == ResultPanel(false, ChipRow([Chip("a", Some("false"))]), true)
    ensures Heading(Render(Some(answer), None)) == "Unsatisfiable"
  {
    var b := Binding("a", false);
    assert AllPlain([b]);
    assert TokenOf(b) == "(a,false)";
    assert Encode([b]) == answer;
    ParseEncode([b]);
    EncodedVerdict([b]);
    assert ChipsFor([b]) == [ChipFor(b)];
    assert answer[1] != Sentinel[1];
  }

  /** A token without a comma gives a chip with no value, coloured red. */
  lemma TokenWithoutComma()
    ensures ParseToken("(a)") == Some(Chip("a", None))
    ensures !ShowsTrue(Chip("a", None))
  {
    assert "(a)" == ['('] + "a" + [')'];
    BareToken("a", [], [')']);
    assert RemoveAll("(a)", Parens) == "a";
    CommaPieces("a");
    assert IndexOf("a", ',') == 1;
  }

  /** Empty tokens (from doubled spaces) and tokens with an empty name yield no chip. */
  lemma EmptyNamesYieldNoChip(value: string)
    ensures ParseToken("") == None
    ensures ParseToken("(," + value + ")") == None
  {
    var token := "(," + value + ")";
    assert token == ['('] + ([','] + (value + [')']));
    RemoveAllAppend(['('], [','] + (value + [')']), Parens);
    RemoveAllAppend([','], value + [')'], Parens);
    assert RemoveAll(['('], Parens) == [];
    assert RemoveAll([','], Parens) == [','];
    assert RemoveAll(token, Parens)[0] == ',';
    assert RemoveAll("", Parens) == "";
  }

  // ----- Round trip: well-formed assignments --------------------------------

  /** A variable binding as the solver reports it. */
  datatype Binding = Binding(name: string, value: bool)

  function ValueText(b: bool): string
  {
    if b then "true" else "false"
  }

  /** `(name,value)` */
  function TokenOf(b: Binding): string
  {
    "(" + b.name + "," + ValueText(b.value) + ")"
  }

  function TokensOf(bs: seq<Binding>): (ts: seq<string>)
    ensures |ts| == |bs|
    ensures forall k :: 0 <= k < |bs| ==> ts[k] == TokenOf(bs[k])
  {
    if bs == [] then [] else [TokenOf(bs[0])] + TokensOf(bs[1..])
  }

  /** The answer string for a sequence of bindings: their tokens joined by single spaces. */
  function Encode(bs: seq<Binding>): string
  {
    Join(TokensOf(bs), ' ')
  }

  /** The chip a binding should produce. */
  function ChipFor(b: Binding): Chip
  {
    Chip(b.name, Some(ValueText(b.value)))
  }

  function ChipsFor(bs: seq<Binding>): (cs: seq<Chip>)
    ensures |cs| == |bs|
    ensures forall k :: 0 <= k < |bs| ==> cs[k] == ChipFor(bs[k])
  {
    if bs == [] then [] else [ChipFor(bs[0])] + ChipsFor(bs[1..])
  }

  predicate AllPlain(bs: seq<Binding>)
  {
    forall k :: 0 <= k < |bs| ==> IsPlainName(bs[k].name)
  }

  /** Removing parentheses from `(` + `name` + `mid` + `)` keeps `name` + `mid` when neither holds one. */
  lemma BareToken(name: string, mid: string, close: string)
    requires close == [')']
    requires forall k :: 0 <= k < |name| ==> name[k] !in Parens
    requires forall k :: 0 <= k < |mid| ==> mid[k] !in Parens
    ensures RemoveAll(['('] + name + mid + close, Parens) == name + mid
  {
    assert ['('] + name + mid + close == ['('] + (name + (mid + close));
    RemoveAllAppend(['('], name + (mid + close), Parens);
    RemoveAllAppend(name, mid + close, Parens);
    RemoveAllAppend(mid, close, Parens);
    RemoveAllNothing(name, Parens);
    RemoveAllNothing(mid, Parens);
    assert RemoveAll(['('], Parens) == [];
    assert RemoveAll(close, Parens) == [];
  }

  /** One well-formed token parses to its binding's chip. */
  lemma ParseBinding(b: Binding)
    requires IsPlainName(b.name)
    ensures ParseToken(TokenOf(b)) == Some(ChipFor(b))
    ensures ShowsTrue(ChipFor(b)) <==> b.value
  {
    var vt := ValueText(b.value);
    var mid := [','] + vt;
    assert TokenOf(b) == ['('] + b.name + mid + [')'];
    assert forall k :: 0 <= k < |vt| ==> vt[k] != ',' && vt[k] !in Parens;
    BareToken(b.name, mid, [')']);
    var bare := b.name + mid;
    assert Join([b.name, vt], ',') == bare;
    SplitJoin([b.name, vt], ',');
    assert Split(bare, ',') == [b.name, vt];
  }

  /**
   * The colour test of line 133 on a token `(name,value)`: the chip shows
   * `value` verbatim and is green only for the exact text `true`, so
   * `True`, `1` or an empty value are shown red.
   */
  lemma ValueColour(name: string, value: string)
    requires IsPlainName(name)
    requires forall k :: 0 <= k < |value| ==> value[k] != ',' && value[k] !in Parens
    ensures ParseToken("(" + name + "," + value + ")") == Some(Chip(name, Some(value)))
    ensures ShowsTrue(Chip(name, Some(value))) <==> value == "true"
  {
    var mid := [','] + value;
    assert "(" + name + "," + value + ")" == ['('] + name + mid + [')'];
    assert forall k :: 0 <= k < |name| ==> name[k] !in Parens && name[k] != ',';
    BareToken(name, mid, [')']);
    var bare := name + mid;
    assert Join([name, value], ',') == bare;
    SplitJoin([name, value], ',');
    assert Split(bare, ',') == [name, value];
  }

  /** A binding with a plain name gives a token without a space. */
  lemma TokenHasNoSpace(b: Binding)
    requires IsPlainName(b.name)
    ensures ' ' !in TokenOf(b)
  {
    var vt := ValueText(b.value);
    assert ' ' !in b.name by {
      forall i | 0 <= i < |b.name|
        ensures b.name[i] != ' '
      {
        assert IsPlainChar(b.name[i]);
      }
    }
    assert ' ' !in vt;
    assert TokenOf(b) == "(" + b.name + "," + vt + ")";
  }

  /** Bindings with plain names never put a space inside a token. */
  lemma TokensHaveNoSpace(bs: seq<Binding>)
    requires AllPlain(bs)
    ensures forall k :: 0 <= k < |bs| ==> ' ' !in TokensOf(bs)[k]
  {
    forall k | 0 <= k < |bs|
      ensures ' ' !in TokensOf(bs)[k]
    {
      TokenHasNoSpace(bs[k]);
    }
  }

  lemma {:induction false} ChipsOfTokens(bs: seq<Binding>)
    requires AllPlain(bs)
    ensures ChipsOf(TokensOf(bs)) == ChipsFor(bs)
  {
    if bs != [] {
      ParseBinding(bs[0]);
      assert TokensOf(bs)[1..] == TokensOf(bs[1..]);
      ChipsOfTokens(bs[1..]);
    }
  }

  /**
   * Round trip: joining well-formed `(name,value)` tokens with single
   * spaces and parsing gives back the same bindings, in order, with each
   * chip green exactly when its value is true.
   */
  lemma ParseEncode(bs: seq<Binding>)
    requires AllPlain(bs)
    ensures ParseChips(Encode(bs)) == ChipsFor(bs)
    ensures forall k :: 0 <= k < |bs| ==> (ShowsTrue(ParseChips(Encode(bs))[k]) <==> bs[k].value)
  {
    if bs == [] {
      assert Encode(bs) == "";
      assert RemoveAll("", Parens) == "";
    } else {
      TokensHaveNoSpace(bs);
      SplitJoin(TokensOf(bs), ' ');
    }
    ChipsOfTokens(bs);
  }

  /**
   * Line 123 token by token: the chips of two runs of tokens are the chips
   * of the first run followed by those of the second, so a token that
   * yields no chip only drops out and never reorders the others.
   */
  lemma {:induction false} ChipsOfAppend(a: seq<string>, b: seq<string>)
    ensures ChipsOf(a + b) == ChipsOf(a) + ChipsOf(b)
  {
    if a == [] {
      assert a + b == b;
    } else {
      assert (a + b)[0] == a[0] && (a + b)[1..] == a[1..] + b;
      ChipsOfAppend(a[1..], b);
    }
  }

  /** Two space-free tokens with a doubled space between them split into three, the middle one empty. */
  lemma DoubledSpaceTokens(tx: string, ty: string)
    requires ' ' !in tx && ' ' !in ty
    ensures Split(tx + "  " + ty, ' ') == [tx, "", ty]
  {
    var tokens := [tx, "", ty];
    assert tokens[1..] == ["", ty] && tokens[1..][1..] == [ty];
    assert Join(["", ty], ' ') == [' '] + ty;
    assert Join(tokens, ' ') == tx + "  " + ty;
    SplitJoin(tokens, ' ');
  }

  /** An empty token in front contributes no chip. */
  lemma LeadingEmptyTokenSkipped(ty: string)
    requires ParseToken(ty).Some?
    ensures ChipsOf(["", ty]) == [ParseToken(ty).value]
  {
    EmptyNamesYieldNoChip("");
    assert ["", ty][1..] == [ty];
  }

  /** The empty middle token contributes no chip. */
  lemma EmptyTokenSkipped(tx: string, ty: string)
    requires ParseToken(tx).Some? && ParseToken(ty).Some?
    ensures ChipsOf([tx, "", ty]) == [ParseToken(tx).value, ParseToken(ty).value]
  {
    LeadingEmptyTokenSkipped(ty);
    assert [tx, "", ty][1..] == ["", ty];
  }

  /**
   * A doubled space between two well-formed tokens leaves an empty token,
   * which is skipped: the answer still shows exactly the two chips, in order.
   */
  lemma DoubledSpaceSkipped(x: Binding, y: Binding)
    requires AllPlain([x, y])
    ensures ParseChips(TokenOf(x) + "  " + TokenOf(y)) == [ChipFor(x), ChipFor(y)]
  {
    assert IsPlainName([x, y][0].name) && IsPlainName([x, y][1].name);
    var tx, ty := TokenOf(x), TokenOf(y);
    TokenHasNoSpace(x);
    TokenHasNoSpace(y);
    DoubledSpaceTokens(tx, ty);
    ParseBinding(x);
    ParseBinding(y);
    EmptyTokenSkipped(tx, ty);
  }

  // ----- The verdict on well-formed assignments -----------------------------

  /** Every comma is immediately followed by `t`. */
  predicate CommasBeforeT(s: string)
  {
    forall i :: 0 <= i < |s| && s[i] == ',' ==> i + 1 < |s| && s[i + 1] == 't'
  }

  lemma CommasBeforeTJoin(a: string, b: string)
    requires CommasBeforeT(a) && CommasBeforeT(b)
    ensures CommasBeforeT(a + [' '] + b)
  {
    var s := a + [' '] + b;
    forall i | 0 <= i < |s| && s[i] == ','
      ensures i + 1 < |s| && s[i + 1] == 't'
    {
      if i < |a| {
        assert a[i] == ',';
      } else {
        assert b[i - |a| - 1] == ',';
      }
    }
  }

  lemma TrueTokenCommas(b: Binding)
    requires IsPlainName(b.name) && b.value
    ensures CommasBeforeT(TokenOf(b))
  {
    var s := TokenOf(b);
    assert s == ['('] + b.name + [',', 't', 'r', 'u', 'e', ')'];
    forall i | 0 <= i < |s| && s[i] == ','
      ensures i + 1 < |s| && s[i + 1] == 't'
    {
      assert !(1 <= i <= |b.name|);
    }
  }

  /** A string in which every comma is followed by `t` never contains `,false)`. */
  lemma {:induction false} NoFalseMarker(s: string)
    requires CommasBeforeT(s)
    ensures !Includes(s, FalseMarker)
  {
    var n := |FalseMarker|;
    if |s| >= n {
      if s[0] == ',' {
        assert s[..n][1] == 't';
      } else {
        assert s[..n][0] != ',';
      }
    }
    if s != [] {
      var t := s[1..];
      forall i | 0 <= i < |t| && t[i] == ','
        ensures i + 1 < |t| && t[i + 1] == 't'
      {
        assert s[i + 1] == ',';
      }
      NoFalseMarker(t);
    }
  }

  lemma {:induction false} AllTrueCommas(bs: seq<Binding>)
    requires AllPlain(bs)
    requires forall k :: 0 <= k < |bs| ==> bs[k].value
    ensures CommasBeforeT(Encode(bs))
  {
    if |bs| == 1 {
      TrueTokenCommas(bs[0]);
    } else if |bs| > 1 {
      TrueTokenCommas(bs[0]);
      assert TokensOf(bs)[1..] == TokensOf(bs[1..]);
      AllTrueCommas(bs[1..]);
    }
  }

  lemma {:induction false} SomeFalseIncludesMarker(bs: seq<Binding>, k: nat)
    requires k < |bs| && !bs[k].value
    ensures Includes(Encode(bs), FalseMarker)
  {
    var t := TokenOf(bs[0]);
    if k == 0 {
      assert t == "(" + bs[0].name + FalseMarker;
      assert OccursAt(t, FalseMarker, |bs[0].name| + 1);
      IncludesAt(t, FalseMarker, |bs[0].name| + 1);
      if |bs| > 1 {
        IncludesBefore(t, [' '] + Encode(bs[1..]), FalseMarker);
        assert TokensOf(bs)[1..] == TokensOf(bs[1..]);
        assert Encode(bs) == t + ([' '] + Encode(bs[1..]));
      }
    } else {
      SomeFalseIncludesMarker(bs[1..], k - 1);
      assert TokensOf(bs)[1..] == TokensOf(bs[1..]);
      IncludesAfter(t + [' '], Encode(bs[1..]), FalseMarker);
    }
  }

  /**
   * On well-formed answers the verdict is Satisfiable exactly when at
   * least one binding is reported and every binding is `true`: a single
   * `false` binding turns the panel to "Unsatisfiable".
   */
  lemma EncodedVerdict(bs: seq<Binding>)
    requires AllPlain(bs)
    ensures IsSatisfiable(Some(Encode(bs))) <==> |bs| > 0 && forall k :: 0 <= k < |bs| ==> bs[k].value
  {
    if exists k :: 0 <= k < |bs| && !bs[k].value {
      var k :| 0 <= k < |bs| && !bs[k].value;
      SomeFalseIncludesMarker(bs, k);
    } else if |bs| > 0 {
      AllTrueCommas(bs);
      var s := Encode(bs);
      assert |TokenOf(bs[0])| > 0;
      assert s != "" by {
        if |bs| > 1 {
          assert TokensOf(bs)[1..] == TokensOf(bs[1..]);
        }
      }
      NoFalseMarker(s);
    }
  }

  /** The encoding of the two bindings of the example below. */
  lemma MixedAnswerText(bs: seq<Binding>)
    requires bs == [Binding("a", true), Binding("b", false)]
    ensures Encode(bs) == "(a,true) (b,false)"
  {
    assert TokenOf(bs[0]) == "(a,true)" && TokenOf(bs[1]) == "(b,false)";
    var ts := TokensOf(bs);
    assert ts == ["(a,true)", "(b,false)"];
    assert ts[1..] == ["(b,false)"];
    assert Join(ts[1..], ' ') == "(b,false)";
    assert Join(ts, ' ') == ts[0] + [' '] + Join(ts[1..], ' ');
  }

  /** The answer from the solver contract example: two chips, verdict Unsatisfiable. */
  lemma MixedAnswerExample(bs: seq<Binding>)
    requires bs == [Binding("a", true), Binding("b", false)]
    ensures Encode(bs) == "(a,true) (b,false)"
    ensures ParseChips(Encode(bs)) == [Chip("a", Some("true")), Chip("b", Some("false"))]
    ensures !IsSatisfiable(Some(Encode(bs)))
  {
    MixedAnswerText(bs);
    assert AllPlain(bs);
    ParseEncode(bs);
    assert ChipsFor(bs) == [Chip("a", Some("true")), Chip("b", Some("false"))];
    assert !bs[1].value;
    EncodedVerdict(bs);
  }
}
