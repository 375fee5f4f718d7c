/** `V`: the index of one of the general-purpose registers V0 ..= VF. */
module RegisterIndex {
  import opened Nibbles
  import Fmt

  /** A register index wraps a nibble, so it names one of exactly sixteen registers. */
  datatype V = V(n: Nibble)

  const V0: V := V(N0)
  const VF: V := V(NF)

  /** `Display`: "V" and one upper-case hex digit, such as "VA". */
  function Display(v: V): (s: string)
    ensures |s| == 2 && s[0] == 'V' && Fmt.IsHexDigit(s[1], true)
    ensures Fmt.Parse(s[1..], 16) == ToU8(v.n)
  {
    var s := "V" + UpperHex(v.n);
    assert s[1..] == [] + [s[1]];
    Fmt.ParseSnoc([], s[1], 16);
    s
  }

  /** `Debug`: written with the same format string as `Display`. */
  function Debug(v: V): string {
    "V" + UpperHex(v.n)
  }

  /** `V::iter`: the sixteen registers V0 ..= VF in order. */
  function Iter(): (r: seq<V>)
    ensures |r| == 16
    ensures forall k :: 0 <= k < 16 ==> ToU8(r[k].n) == k
  {
    var ns := Nibbles.Iter();
    seq(16, k requires 0 <= k < 16 => V(ns[k]))
  }

  /** Two registers print the same exactly when they are the same register. */
  lemma DisplayInjective(a: V, b: V)
    ensures Display(a) == Display(b) <==> a == b
  {
    if Display(a) == Display(b) {
      assert Display(a)[1..] == Display(b)[1..];
      ToU8Injective();
    }
  }

  lemma DebugIsDisplay(v: V)
    ensures Debug(v) == Display(v)
  {
  }
}
