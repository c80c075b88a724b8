/**
 * The home page (app/page.tsx): the same four slots and `handleSubmit` as
 * the solver page, plus example selection, and the two-way wiring of
 * `currentFormula` with the formula editor (`initialValue` in,
 * `onFormulaChange` out).
 */
module HomePage {
  import opened Js
  import opened Text
  import opened MarinaClient
  import opened FormulaInput
  import opened SolverPage

  /** The page's state and the editor it renders, mounted with both callbacks wired. */
  class Home {
    const session: Session
    const editor: Editor

    constructor ()
      ensures Valid() && Synced()
      ensures session.result == None && session.error == None && !session.isLoading
    {
      session := new Session();
      editor := new Editor("", true, true);
    }

    /** The editor is mounted and forwards its edits; the slots are at rest. */
    predicate Valid()
      reads this, session, editor
    {
      editor.Valid() && editor.hasTextarea && editor.forwardsChanges && session.Valid()
    }

    /** The editor shows the page's `currentFormula`. */
    predicate Synced()
      reads this, session, editor
    {
      editor.formula == session.currentFormula
    }

    /**
     * `handleSelectExample(formula)`: only `currentFormula` changes; the
     * editor then takes it through its `initialValue` effect. Choosing
     * the formula already shown changes nothing, so the caret stays put.
     */
    method SelectExample(formula: string)
      requires Valid() && Synced()
      modifies session, editor
      ensures Valid() && Synced()
      ensures session.currentFormula == formula && editor.formula == formula
      ensures formula != old(session.currentFormula) ==>
        editor.selectionStart == |formula| == editor.selectionEnd
      ensures formula == old(session.currentFormula) ==>
        editor.selectionStart == old(editor.selectionStart) && editor.selectionEnd == old(editor.selectionEnd)
      ensures session.result == old(session.result) && session.error == old(session.error)
      ensures session.isLoading == old(session.isLoading)
    {
      session.currentFormula := formula;
      editor.SyncInitialValue(session.currentFormula);
    }

    /** A keystroke in the editor: the new text is written back into `currentFormula`. */
    method Type(value: string, caret: nat)
      requires Valid() && caret <= |value|
      modifies session, editor
      ensures Valid() && Synced()
      ensures editor.formula == value
      ensures editor.selectionStart == caret == editor.selectionEnd
      ensures session.result == old(session.result) && session.error == old(session.error)
      ensures session.isLoading == old(session.isLoading)
    {
      var forwarded := editor.HandleFormulaChange(value, caret);
      session.currentFormula := forwarded.value;
    }

    /** A toolbar click in the editor: the spliced text is written back into `currentFormula`. */
    method Insert(text: string)
      requires Valid()
      modifies session, editor
      ensures Valid() && Synced()
      ensures editor.formula == Splice(old(editor.formula), old(editor.selectionStart), old(editor.selectionEnd), text)
      ensures editor.selectionStart == old(editor.selectionStart) + |text| == editor.selectionEnd
      ensures session.result == old(session.result) && session.error == old(session.error)
      ensures session.isLoading == old(session.isLoading)
    {
      var forwarded := editor.InsertAtCursor(text);
      session.currentFormula := forwarded.value;
    }

    /**
     * Pressing "Solve SAT": a blank formula changes nothing; otherwise
     * `handleSubmit` runs with the editor's text over `transport`, and the
     * editor keeps showing the submitted formula.
     */
    method Submit(env: Option<string>, transport: HttpRequest -> FetchOutcome)
      requires Valid() && Synced()
      modifies session
      ensures Valid() && Synced()
      ensures editor.formula == old(editor.formula)
      ensures editor.selectionStart == old(editor.selectionStart) && editor.selectionEnd == old(editor.selectionEnd)
      ensures IsBlank(old(editor.formula)) ==>
        session.result == old(session.result) && session.error == old(session.error)
        && session.isLoading == old(session.isLoading)
      ensures !IsBlank(old(editor.formula)) ==>
        Slots(session.result, session.error) == Settle(Resolved(SolveSAT(editor.formula, env, transport)))
        && !session.isLoading
    {
      var submitted := editor.Submit();
      if submitted.Some? {
        session.Solve(submitted.value, env, transport);
      }
    }

    /**
     * Re-choosing the example already in the editor keeps the caret where
     * the user put it, so a following toolbar click splices there, not at
     * the end: `a & b` with the caret after `a `, then `|`, gives `a  | & b`.
     */
    method ReselectKeepsCaret()
      requires Valid()
      modifies session, editor
      ensures Valid() && Synced()
      ensures editor.formula == "a  | & b"
    {
      Type("a & b", 2);
      SelectExample("a & b");
      Insert(" | ");
      assert editor.formula == "a " + " | " + "& b";
    }
  }
}
