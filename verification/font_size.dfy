/** Videos/js/font-size.js: the page's base font size, kept between 10 and
    36 pixels, changed in steps of 2 and remembered in local storage. */
module FontSize {
  import opened Common
  import opened Strings

  const StorageKey := "fontSizeScale"
  const MinSize := 10
  const MaxSize := 36
  const Step := 2
  const DefaultSize := 16

  /** `currentSize`, the `--font-scale-base` property and the stored value. */
  datatype FontState = FontState(current: int, cssValue: string, stored: string)

  /** `Math.min(MAX_SIZE, Math.max(MIN_SIZE, size))`. */
  function Clamp(size: int): (r: int)
    ensures MinSize <= r <= MaxSize
    ensures MinSize <= size <= MaxSize ==> r == size
    ensures size < MinSize ==> r == MinSize
    ensures size > MaxSize ==> r == MaxSize
  {
    if size > MaxSize then MaxSize else if size < MinSize then MinSize else size
  }

  /** `applyFontSize(size)`: the clamped size becomes the current size, the
      CSS value in pixels and the stored text. */
  function Apply(size: int): (s: FontState)
    ensures MinSize <= s.current <= MaxSize
    ensures s.cssValue == s.stored + "px"
    ensures ParseInt(Some(s.stored)) == Some(s.current)
  {
    var n := Clamp(size);
    ParseIntOfNatToString(n);
    FontState(n, NatToString(n) + "px", NatToString(n))
  }

  /** Lines 15-18 and 36: the stored text read with `parseInt`, 16 when it
      is missing or not a number, then applied. */
  function Init(stored: Option<string>): (s: FontState)
    ensures ParseInt(stored).None? ==> s.current == DefaultSize
    ensures ParseInt(stored).Some? ==> s.current == Clamp(ParseInt(stored).value)
  {
    var parsed := ParseInt(stored);
    Apply(if parsed.None? then DefaultSize else parsed.value)
  }

  function Increase(s: FontState): FontState {
    Apply(s.current + Step)
  }

  function Decrease(s: FontState): FontState {
    Apply(s.current - Step)
  }

  /** Whatever was stored, and after any click, the size stays in range. */
  lemma AlwaysInRange(stored: Option<string>, s: FontState)
    ensures MinSize <= Init(stored).current <= MaxSize
    ensures MinSize <= Increase(s).current <= MaxSize
    ensures MinSize <= Decrease(s).current <= MaxSize
  {
  }

  /** The buttons saturate at the bounds. */
  lemma Saturation(s: FontState)
    ensures s.current >= MaxSize - 1 ==> Increase(s).current == MaxSize
    ensures s.current <= MinSize + 1 ==> Decrease(s).current == MinSize
  {
  }

  /** Away from the top bound, one step up and one step down return to the
      same size; away from the bottom, the other way round. */
  lemma IncreaseDecrease(s: FontState)
    requires MinSize <= s.current && s.current + Step <= MaxSize
    ensures Decrease(Increase(s)).current == s.current
  {
  }

  lemma DecreaseIncrease(s: FontState)
    requires s.current - Step >= MinSize && s.current <= MaxSize
    ensures Increase(Decrease(s)).current == s.current
  {
  }

  /** Reloading the page restores the state the last click stored. */
  lemma ReloadRestores(size: int)
    ensures Init(Some(Apply(size).stored)) == Apply(size)
  {
  }
}
