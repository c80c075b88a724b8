/**
 * The formula editor (components/solver/FormulaInput.tsx): a text area
 * whose `formula` state slot is edited by typing, by the operator toolbar
 * (which splices a snippet over the current selection) and by the parent's
 * `initialValue`, plus the blank-input guard in front of `onSubmit`.
 */
module FormulaInput {
  import opened Js
  import opened Text

  /**
   * `formula.substring(0, start) + text + formula.substring(end)`: the
   * selection `[start, end)` is replaced by `text`.
   */
  function Splice(formula: string, start: nat, end: nat, text: string): (r: string)
    requires start <= end <= |formula|
    ensures |r| == |formula| - (end - start) + |text|
    ensures r[..start] == formula[..start]
    ensures r[start..start + |text|] == text
    ensures r[start + |text|..] == formula[end..]
  {
    formula[..start] + text + formula[end..]
  }

  /** Splicing back what was selected undoes a splice. */
  lemma SpliceUndo(formula: string, start: nat, end: nat, text: string)
    requires start <= end <= |formula|
    ensures Splice(Splice(formula, start, end, text), start, start + |text|, formula[start..end]) == formula
  {
    var r := Splice(formula, start, end, text);
    var back := Splice(r, start, start + |text|, formula[start..end]);
    assert back == formula[..start] + formula[start..end] + formula[end..];
    assert formula == formula[..start] + formula[start..end] + formula[end..];
  }

  /** A snippet with a visible character makes the whole formula non-blank. */
  lemma SpliceNotBlank(formula: string, start: nat, end: nat, text: string)
    requires start <= end <= |formula|
    requires !IsBlank(text)
    ensures !IsBlank(Splice(formula, start, end, text))
  {
    var r := Splice(formula, start, end, text);
    var k :| 0 <= k < |text| && !IsWhitespace(text[k]);
    assert r[start + k] == r[start..start + |text|][k];
  }

  /**
   * `disabled={isLoading || !formula.trim()}`: the button is disabled
   * while a request is in flight or the formula is blank.
   */
  function SubmitDisabled(isLoading: bool, formula: string): (disabled: bool)
    ensures disabled <==> isLoading || IsBlank(formula)
  {
    TrimEmptyIffBlank(formula);
    isLoading || Trim(formula) == ""
  }

  /** The snippets the toolbar buttons insert, in button order. */
  const ToolbarSnippets: seq<string> := [" & ", " | ", " ~", " -> ", " <-> ", "()", "T", "F"]

  /** Every toolbar snippet holds a visible character, so any toolbar click enables submission. */
  lemma ToolbarSnippetsNotBlank(k: nat)
    requires k < |ToolbarSnippets|
    ensures !IsBlank(ToolbarSnippets[k])
  {
    var s := ToolbarSnippets[k];
    if k == 1 {
      assert !IsWhitespace(s[1]);
    } else if k == 2 {
      assert !IsWhitespace(s[1]);
    } else if k == 3 {
      assert !IsWhitespace(s[1]);
    } else if k == 4 {
      assert !IsWhitespace(s[1]);
    } else {
      assert !IsWhitespace(s[0]) || !IsWhitespace(s[1]);
    }
  }

  /**
   * The component's state: the `formula` slot and the text area's
   * selection. `hasTextarea` says whether `inputRef.current` is set;
   * `forwardsChanges` whether the parent passed `onFormulaChange`.
   */
  class Editor {
    var formula: string
    var selectionStart: nat
    var selectionEnd: nat
    const hasTextarea: bool
    const forwardsChanges: bool

    /** The selection lies within the text. */
    predicate Valid()
      reads this
    {
      selectionStart <= selectionEnd <= |formula|
    }

    /** `useState(initialValue)`, with the caret at the start. */
    constructor (initialValue: string, hasTextarea: bool, forwardsChanges: bool)
      ensures Valid()
      ensures formula == initialValue && selectionStart == 0 && selectionEnd == 0
      ensures this.hasTextarea == hasTextarea && this.forwardsChanges == forwardsChanges
    {
      formula := initialValue;
      selectionStart := 0;
      selectionEnd := 0;
      this.hasTextarea := hasTextarea;
      this.forwardsChanges := forwardsChanges;
    }

    /** The user moves the caret or selects a range in the text area. */
    method Select(start: nat, end: nat)
      requires start <= end <= |formula|
      modifies this
      ensures Valid()
      ensures selectionStart == start && selectionEnd == end
      ensures formula == old(formula)
    {
      selectionStart, selectionEnd := start, end;
    }

    /**
     * `handleFormulaChange(value)` from a keystroke: the slot takes the new
     * value and, when the parent listens, the identical value is passed to
     * `onFormulaChange` (returned as `forwarded`). `caret` is where the
     * browser leaves the caret after the edit.
     */
    method HandleFormulaChange(value: string, caret: nat) returns (forwarded: Option<string>)
      requires caret <= |value|
      modifies this
      ensures Valid()
      ensures formula == value
      ensures selectionStart == caret && selectionEnd == caret
      ensures forwarded == (if forwardsChanges then Some(value) else None)
    {
      formula := value;
      selectionStart, selectionEnd := caret, caret;
      forwarded := if forwardsChanges then Some(value) else None;
    }

    /**
     * `insertAtCursor(text)`: without a text area nothing happens;
     * otherwise the selection is replaced by `text`, the new value goes
     * through `handleFormulaChange`, and the caret lands right after the
     * inserted snippet.
     */
    method InsertAtCursor(text: string) returns (forwarded: Option<string>)
      requires Valid()
      modifies this
      ensures Valid()
      ensures !hasTextarea ==>
        formula == old(formula) && selectionStart == old(selectionStart)
        && selectionEnd == old(selectionEnd) && forwarded == None
      ensures hasTextarea ==>
        formula == Splice(old(formula), old(selectionStart), old(selectionEnd), text)
        && selectionStart == old(selectionStart) + |text| == selectionEnd
        && forwarded == (if forwardsChanges then Some(formula) else None)
    {
      if !hasTextarea {
        forwarded := None;
        return;
      }
      var start, end := selectionStart, selectionEnd;
      var newText := Splice(formula, start, end, text);
      forwarded := HandleFormulaChange(newText, start + |text|);
    }

    /**
     * The `[initialValue]` effect: the parent's value replaces the slot.
     * When it differs from the text shown, the text area's value is set
     * from code and the browser puts the caret at its end. When it is the
     * text already shown (the parent re-sent the same string, so React
     * skips the effect, and a same-value update leaves the text area
     * alone), the caret and the selection stay where the user left them.
     */
    method SyncInitialValue(initialValue: string)
      requires Valid()
      modifies this
      ensures Valid()
      ensures formula == initialValue
      ensures initialValue != old(formula) ==> selectionStart == |initialValue| == selectionEnd
      ensures initialValue == old(formula) ==>
        selectionStart == old(selectionStart) && selectionEnd == old(selectionEnd)
    {
      if initialValue != formula {
        formula := initialValue;
        selectionStart, selectionEnd := |initialValue|, |initialValue|;
      }
    }

    /**
     * `handleSubmit`: a blank formula is refused (a toast, no call);
     * otherwise `onSubmit` receives the formula exactly as held, untrimmed.
     */
    method Submit() returns (submitted: Option<string>)
      ensures submitted == None <==> IsBlank(formula)
      ensures submitted != None ==> submitted == Some(formula)
    {
      TrimEmptyIffBlank(formula);
      if Trim(formula) == "" {
        submitted := None;
      } else {
        submitted := Some(formula);
      }
    }
  }

  /** After any toolbar click in a mounted editor, submission goes through with the spliced text. */
  method ToolbarThenSubmit(e: Editor, k: nat) returns (submitted: Option<string>)
    requires e.Valid() && e.hasTextarea
    requires k < |ToolbarSnippets|
    modifies e
    ensures submitted == Some(e.formula)
    ensures e.formula == Splice(old(e.formula), old(e.selectionStart), old(e.selectionEnd), ToolbarSnippets[k])
  {
    var _ := e.InsertAtCursor(ToolbarSnippets[k]);
    ToolbarSnippetsNotBlank(k);
    SpliceNotBlank(old(e.formula), old(e.selectionStart), old(e.selectionEnd), ToolbarSnippets[k]);
    submitted := e.Submit();
  }
}
