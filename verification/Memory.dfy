/** Writing text into a buffer. */
module Memory {
  /** memcpy of `text` to the place `at` */
  method CopyTo(target: array<char>, at: nat, text: string)
    requires at + |text| <= target.Length
    modifies target
    ensures target[..at + |text|] == old(target[..at]) + text
    ensures target[at + |text|..] == old(target[at + |text|..])
  {
    for i := 0 to |text|
      invariant target[..at] == old(target[..at]) && target[at..at + i] == text[..i]
      invariant target[at + i..] == old(target[at + i..])
    {
      target[at + i] := text[i];
    }
    assert target[..at + |text|] == target[..at] + target[at..at + |text|] && text[..|text|] == text;
  }
}
