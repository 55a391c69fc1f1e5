/** When a text joins the pack being filled, and when that pack is passed on (prj/src/log/Queue.h:97-128). */
module LogPacks {
  import opened LogQueue

  /** The pack being filled is passed on before a text if and only if the text does not fit. */
  lemma PassedOnIff(p: Packs, text: Text)
    ensures p.WithRoom(|text|) != p <==> p.avail != [] && |p.Back().bytes| + |text| > 8191
  {
    if p.avail != [] {
      assert |p.avail[..|p.avail| - 1]| < |p.avail|;
    }
  }

  /** A text that fits is kept whole behind what is in the pack, and the pack is passed on at once if
      and only if that fills it. */
  lemma JoinsPack(p: Packs, text: Text)
    requires p.avail != [] && text != [] && |p.Back().bytes| + |text| <= 8191
    ensures var others, filled := p.avail[..|p.avail| - 1], Pack(p.Back().bytes + text);
      p.With(text) ==
        if |filled.bytes| == 8191 then Packs(others, p.logging + [filled]) else Packs(others + [filled], p.logging)
  {
  }

  /** With no pack available a new one is begun. */
  lemma BeginsPack(p: Packs, text: Text)
    requires p.avail == [] && 0 < |text| < 8191
    ensures p.With(text) == Packs([Pack(text)], p.logging)
  {
    assert [] + text == text && [] + [Pack(text)] == [Pack(text)];
  }
}
