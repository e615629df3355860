/**
 * The colour list of the graph (class Colors of ping-exp.py): six fixed
 * colours first, then as many random '#rrggbb' colours as are asked for.
 * The list only ever grows, and an entry once there never changes.
 */
module Palette {
  import opened Wrappers
  import opened Text

  /** The colours picked by hand so that at least the first few look good. */
  const Seeds: seq<string> := ["#3194e0", "#49db50", "#e03131", "#e1a127", "#bf35e1", "#3db7b0"]

  /** '#' followed by six lower-case hexadecimal digits. */
  predicate IsColor(s: string)
  {
    |s| == 7 && s[0] == '#' && forall k :: 1 <= k < 7 ==> IsHexDigit(s[k])
  }

  /** The red, green and blue components a colour text spells. */
  function Components(s: string): (rgb: (nat, nat, nat))
    requires IsColor(s)
    ensures rgb.0 < 256 && rgb.1 < 256 && rgb.2 < 256
  {
    (HexValue(s[1]) * 16 + HexValue(s[2]), HexValue(s[3]) * 16 + HexValue(s[4]), HexValue(s[5]) * 16 + HexValue(s[6]))
  }

  /** "#%02x%02x%02x" of three components. */
  function ColorText(r: nat, g: nat, b: nat): string
    requires r < 256 && g < 256 && b < 256
  {
    "#" + Hex2(r) + Hex2(g) + Hex2(b)
  }

  /** A colour written from three components is a colour text that reads back as the same components. */
  lemma {:induction false} ColorRoundTrip(r: nat, g: nat, b: nat)
    requires r < 256 && g < 256 && b < 256
    ensures IsColor(ColorText(r, g, b)) && Components(ColorText(r, g, b)) == (r, g, b)
  {
    var s := ColorText(r, g, b);
    var hr, hg, hb := Hex2(r), Hex2(g), Hex2(b);
    assert s[1] == hr[0] && s[2] == hr[1] && s[3] == hg[0] && s[4] == hg[1] && s[5] == hb[0] && s[6] == hb[1];
  }

  /** A colour the list adds: each component is drawn from randrange(0, 255), that is 0 to 254. */
  predicate IsDrawn(s: string)
  {
    IsColor(s) && Components(s).0 < 255 && Components(s).1 < 255 && Components(s).2 < 255
  }

  /** What the list holds at any time: the six seeds, then drawn colours. */
  predicate IsPalette(cs: seq<string>)
  {
    Seeds <= cs && forall k :: |Seeds| <= k < |cs| ==> IsDrawn(cs[k])
  }

  /** Every entry of the list is a '#rrggbb' colour, the seeds included. */
  lemma {:induction false} PaletteColors(cs: seq<string>)
    requires IsPalette(cs)
    ensures |cs| >= 6
    ensures forall k :: 0 <= k < |cs| ==> IsColor(cs[k])
  {
    forall k | 0 <= k < |cs| ensures IsColor(cs[k]) {
      if k < |Seeds| {
        assert cs[k] == Seeds[k];
      }
    }
  }

  /** The palette grown by any number of drawn colours is still a palette that keeps every old entry. */
  lemma {:induction false} PaletteGrows(cs: seq<string>, added: seq<string>)
    requires IsPalette(cs)
    requires forall k :: 0 <= k < |added| ==> IsDrawn(added[k])
    ensures IsPalette(cs + added) && cs <= cs + added
  {
    var all := cs + added;
    assert all[..|Seeds|] == cs[..|Seeds|];
    forall k | |Seeds| <= k < |all| ensures IsDrawn(all[k]) {
      if k < |cs| {
        assert all[k] == cs[k];
      } else {
        assert all[k] == added[k - |cs|];
      }
    }
  }

  /** Python's seq[index]: a negative index counts from the end; out of range is an IndexError (None). */
  function PyIndex(s: seq<string>, index: int): (r: Option<string>)
    ensures r.Some? <==> -|s| <= index < |s|
    ensures 0 <= index < |s| ==> r == Some(s[index])
    ensures -|s| <= index < 0 ==> r == Some(s[|s| + index])
  {
    if 0 <= index < |s| then Some(s[index])
    else if -|s| <= index < 0 then Some(s[|s| + index])
    else None
  }

  /** Python's seq[:size]: a negative size drops that many entries from the end, or all of them. */
  function PyPrefix(s: seq<string>, size: int): (r: seq<string>)
    ensures r <= s
    ensures size >= |s| ==> r == s
    ensures 0 <= size <= |s| ==> |r| == size
    ensures size < 0 ==> |r| == if |s| + size < 0 then 0 else |s| + size
  {
    if size >= |s| then s
    else if size >= 0 then s[..size]
    else if |s| + size < 0 then []
    else s[..|s| + size]
  }

  class Colors {
    var colors: seq<string>

    ghost predicate Valid()
      reads this
    {
      IsPalette(colors)
    }

    constructor()
      ensures Valid() && colors == Seeds
    {
      colors := Seeds;
    }

    /** Appends random colours until there are at least num of them. */
    method ExpandList(num: int)
      requires Valid()
      modifies this
      ensures Valid()
      ensures |colors| == if num > |old(colors)| then num else |old(colors)|
      ensures old(colors) <= colors
    {
      ghost var before := colors;
      var i := |colors|;
      while i < num
        invariant |before| <= i && |colors| == i
        invariant i == |before| || i <= num
        invariant before <= colors && IsPalette(colors)
        decreases num - i
      {
        var r: nat, g: nat, b: nat :| r < 255 && g < 255 && b < 255;
        var c := ColorText(r, g, b);
        ColorRoundTrip(r, g, b);
        assert IsDrawn(c);
        PaletteGrows(colors, [c]);
        colors := colors + [c];
        i := i + 1;
      }
    }

    /** c[index]: the list first grows to index + 1 entries, then Python indexing applies. */
    method Get(index: int) returns (r: Option<string>)
      requires Valid()
      modifies this
      ensures Valid() && old(colors) <= colors
      ensures |colors| == if index + 1 > |old(colors)| then index + 1 else |old(colors)|
      ensures index >= 0 ==> r == Some(colors[index])
      ensures index < 0 ==> colors == old(colors)
      ensures r == PyIndex(colors, index)
    {
      ExpandList(index + 1);
      r := PyIndex(colors, index);
    }

    /** The first size colours, after the list has grown to at least size entries. */
    method List(size: int) returns (r: seq<string>)
      requires Valid()
      modifies this
      ensures Valid() && old(colors) <= colors
      ensures |colors| == if size > |old(colors)| then size else |old(colors)|
      ensures size >= 0 ==> |r| == size
      ensures size < 0 ==> colors == old(colors)
      ensures r == PyPrefix(colors, size) && r <= colors
    {
      ExpandList(size);
      r := PyPrefix(colors, size);
    }
  }
}
