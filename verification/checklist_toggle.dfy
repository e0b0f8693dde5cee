/**
 * The checklist plugin's toggle service
 * (plugins/checklist/app/services/checklist/toggle.rb): flip the checkbox
 * that starts at a given character offset of a post's raw text.
 *
 * The service steps that talk to the database, the guardian, the post
 * revisor and the message bus are not modelled; what is left is the
 * contract, the validation step and the rewrite step, on the raw text.
 */
module ChecklistToggle {
  import opened Wrappers

  /** Why the service stops. */
  datatype ToggleError =
    | InvalidContract     // the offset is negative
    | InvalidOffset       // the offset does not point at a toggleable box
    | PermanentCheckbox   // the box is `[X]`

  /** What the service hands on: the new raw text and the new state. */
  datatype Toggled = Toggled(newRaw: string, newChecked: bool)

  /** The three-character boxes the validation accepts: on a segment of at
      most three characters, exactly where the unanchored pattern
      `\[[ xX]\]` finds a match. */
  predicate IsBox(segment: string): (b: bool)
    ensures |segment| <= 3 ==>
              (b <==> exists i :: 0 <= i && i + 3 <= |segment| && segment[i] == '['
                                  && segment[i + 1] in " xX" && segment[i + 2] == ']')
  {
    assert |segment| == 3 ==> segment == [segment[0], segment[1], segment[2]];
    var b := segment == "[ ]" || segment == "[x]" || segment == "[X]";
    assert b ==> segment[0] == '[' && segment[0 + 1] in " xX" && segment[0 + 2] == ']';
    b
  }

  /** An offset that points at a `[` escaped with `\` or opening an image's
      alt text `![`. */
  predicate Escaped(raw: string, offset: nat)
    requires offset < |raw|
  {
    offset > 0 && (raw[offset - 1] == '!' || raw[offset - 1] == '\\')
  }

  /** The three characters at `offset`, shorter at the end of the text. */
  function Segment(raw: string, offset: nat): (segment: string)
    requires offset < |raw|
    ensures 1 <= |segment| <= 3
    ensures |segment| == 3 <==> offset + 3 <= |raw|
    ensures offset + |segment| <= |raw|
    ensures segment == raw[offset..offset + |segment|]
  {
    if offset + 3 <= |raw| then raw[offset..offset + 3] else raw[offset..]
  }

  /** `validate_checkbox_at_offset`: whether the box at `offset` is checked,
      or why it cannot be toggled. */
  function ValidateCheckboxAtOffset(raw: string, offset: nat): (r: Result<bool, ToggleError>)
    ensures r.Ok? <==> offset + 3 <= |raw| && !Escaped(raw, offset)
                       && (raw[offset..offset + 3] == "[ ]" || raw[offset..offset + 3] == "[x]")
    ensures r.Ok? ==> (r.value <==> raw[offset..offset + 3] == "[x]")
    ensures r == Err(PermanentCheckbox) <==> offset + 3 <= |raw| && !Escaped(raw, offset)
                                              && raw[offset..offset + 3] == "[X]"
    ensures r.Err? ==> r.error != InvalidContract
  {
    if offset >= |raw| then Err(InvalidOffset)
    else if Escaped(raw, offset) then Err(InvalidOffset)
    else
      var segment := Segment(raw, offset);
      if !IsBox(segment) then Err(InvalidOffset)
      else if segment == "[X]" then Err(PermanentCheckbox)
      else Ok(segment == "[x]")
  }

  /** `toggle_checkbox`: the text with the box at `offset` replaced by its
      opposite. */
  function ToggleCheckbox(raw: string, offset: nat, currentlyChecked: bool): (newRaw: string)
    requires offset + 3 <= |raw|
    ensures |newRaw| == |raw|
    ensures newRaw[offset..offset + 3] == (if currentlyChecked then "[ ]" else "[x]")
    ensures forall i :: 0 <= i < |raw| && !(offset <= i < offset + 3) ==> newRaw[i] == raw[i]
  {
    raw[..offset] + (if currentlyChecked then "[ ]" else "[x]") + raw[offset + 3..]
  }

  /** The service as a whole: the contract, then validation, then the
      rewrite. */
  function Toggle(raw: string, offset: int): (r: Result<Toggled, ToggleError>)
    ensures offset < 0 <==> r == Err(InvalidContract)
    ensures offset >= 0 ==> (r.Ok? <==> ValidateCheckboxAtOffset(raw, offset).Ok?)
    ensures r.Ok? ==> r.value.newChecked == !ValidateCheckboxAtOffset(raw, offset).value
  {
    if offset < 0 then Err(InvalidContract)
    else
      match ValidateCheckboxAtOffset(raw, offset)
      case Err(e) => Err(e)
      case Ok(currentlyChecked) =>
        Ok(Toggled(ToggleCheckbox(raw, offset, currentlyChecked), !currentlyChecked))
  }

  /** A toggle changes one character, the one inside the brackets, to a
      space when the box was checked and to `x` when it was not; the length
      and every other character stay. */
  lemma ToggleChangesOneChar(raw: string, offset: int)
    requires Toggle(raw, offset).Ok?
    ensures var t := Toggle(raw, offset).value;
            && |t.newRaw| == |raw|
            && 0 <= offset && offset + 1 < |raw|
            && t.newRaw[offset + 1] == (if t.newChecked then 'x' else ' ')
            && raw[offset + 1] == (if t.newChecked then ' ' else 'x')
            && forall i :: 0 <= i < |raw| && i != offset + 1 ==> t.newRaw[i] == raw[i]
  {
    var t := Toggle(raw, offset).value;
    var segment := raw[offset..offset + 3];
    var replaced := t.newRaw[offset..offset + 3];
    assert raw[offset + 1] == segment[1] && t.newRaw[offset + 1] == replaced[1];
    forall i | 0 <= i < |raw| && i != offset + 1
      ensures t.newRaw[i] == raw[i]
    {
      if i == offset {
        assert raw[i] == segment[0] && t.newRaw[i] == replaced[0];
      } else if i == offset + 2 {
        assert raw[i] == segment[2] && t.newRaw[i] == replaced[2];
      }
    }
  }

  /** Toggling the same box twice gives the original text back. */
  lemma {:induction false} ToggleTwiceRestores(raw: string, offset: int)
    requires Toggle(raw, offset).Ok?
    ensures var t := Toggle(raw, offset).value;
            Toggle(t.newRaw, offset) == Ok(Toggled(raw, !t.newChecked))
  {
    var t := Toggle(raw, offset).value;
    ToggleChangesOneChar(raw, offset);
    assert t.newRaw[..offset] == raw[..offset];
    assert t.newRaw[offset + 3..] == raw[offset + 3..];
    assert offset == 0 || t.newRaw[offset - 1] == raw[offset - 1];
    var back := Toggle(t.newRaw, offset);
    assert back.Ok?;
    assert back.value.newRaw == raw;
  }

  /** An `[X]` box is refused whatever else is around it, and so the text
      is never rewritten. */
  lemma PermanentNeverToggled(raw: string, offset: int)
    requires 0 <= offset && offset + 3 <= |raw| && raw[offset..offset + 3] == "[X]"
    ensures Toggle(raw, offset).Err?
  {
  }

  /** A box in running text: `[ ]` becomes `[x]` and `[x]` becomes `[ ]`,
      with the text around it untouched, unless the character before it is
      `!` or `\`. */
  lemma {:induction false} ToggleInText(pre: string, post: string, checked: bool)
    requires pre == [] || (pre[|pre| - 1] != '!' && pre[|pre| - 1] != '\\')
    ensures var box := if checked then "[x]" else "[ ]";
            var flipped := if checked then "[ ]" else "[x]";
            Toggle(pre + box + post, |pre|) == Ok(Toggled(pre + flipped + post, !checked))
  {
    var box := if checked then "[x]" else "[ ]";
    var flipped := if checked then "[ ]" else "[x]";
    var raw := pre + box + post;
    var n := |pre|;
    assert raw[n..n + 3] == box;
    assert raw[..n] == pre && raw[n + 3..] == post;
    assert n == 0 || raw[n - 1] == pre[n - 1];
  }
}
