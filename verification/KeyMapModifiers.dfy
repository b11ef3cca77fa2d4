/** What the modifier keys do to the answer for a key, of the kernel's lookup in a compiled image
    (`KeyMapKernel.Map`) and of the direct lookup alike, which both answer with `Respond`: which
    character is picked, what caps lock changes, and what the control key leaves of it
    (Kernel/Sources/console/KeyMap.c:43-73). */
module KeyMapModifiers {
  import opened Bytes
  import opened Sequences
  import opened KeyMapFormat
  import opened KeyMapKernel

  /** For the keys A to Z, codes 4 to 29, caps lock does what letting go of shift does while it
      is held, and what holding shift does otherwise; for no other key does it matter. */
  lemma CapsLockInvertsShift(st: Option<KeyStatement>, code: int, m: Modifiers, maxOut: int)
    ensures var off := m.(capsLock := false);
            Respond(st, code, m.(capsLock := true), maxOut)
            == Respond(st, code, if 4 <= code <= 29 then off.(shift := !m.shift) else off, maxOut)
  {
  }

  /** The five low bits. */
  function LowBits(ch: byte): int { ch as int - 32 * (ch as int / 32) }

  /** Without caps lock: shift and option pick one of the four characters, the plain one stands
      in for a missing one, and control keeps five bits. */
  lemma ModifiersPick(st: KeyStatement, code: int, m: Modifiers, maxOut: int)
    requires st.binding.Chars? && maxOut >= 1 && !m.capsLock
    ensures var b, answer := st.binding, Respond(Some(st), code, m, maxOut);
            && |answer| == 1
            && var ch := if m.option && m.shift && b.shiftAlt != 0 then b.shiftAlt
                         else if m.option && !m.shift && b.alt != 0 then b.alt
                         else if !m.option && m.shift && b.shift != 0 then b.shift
                         else b.plain;
               answer[0] as int == if m.control then LowBits(ch) else ch as int
  {
  }

  /** Strings come as they are, up to the size of the buffer, whatever the modifiers; a key
      that nothing is bound to gives nothing. */
  lemma ModifiersLeaveStrings(st: Option<KeyStatement>, code: int, m: Modifiers, maxOut: int)
    ensures var answer := Respond(st, code, m, maxOut);
            && (st.None? || maxOut <= 0 ==> answer == [])
            && (st.Some? && st.value.binding.Text? && maxOut >= 0 ==>
                  && |answer| == (if |st.value.binding.text| <= maxOut then |st.value.binding.text| else maxOut)
                  && answer <= st.value.binding.text)
  {
  }

  /** The direct lookup answers with the first statement for a code. */
  lemma {:induction false} FindsTheFirst(src: seq<KeyStatement>, i: nat)
    requires i < |src| && forall j | 0 <= j < i :: src[j].code != src[i].code
    ensures Find(src, src[i].code) == Some(src[i])
  {
    if i > 0 { FindsTheFirst(src[1..], i - 1); }
  }
}
