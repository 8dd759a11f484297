/**
 * `DataVisualization`: the colour every chart item gets from the neon palette by
 * its position, and what the custom tooltip shows for each payload entry.
 */
module DataVisualization {
  import opened Wrappers
  import opened JsText

  const NEON_COLORS: seq<string> := [
    "hsl(184, 100%, 50%)",   // cyan
    "hsl(270, 100%, 50%)",   // purple
    "hsl(325, 100%, 50%)",   // pink
    "hsl(127, 100%, 50%)",   // green
    "hsl(30, 100%, 50%)",    // orange
    "hsl(220, 100%, 50%)"    // blue
  ]

  /** A field of a chart item: a JavaScript number (`None` is `NaN`) or a string. */
  datatype Value = Num(n: Option<int>) | Text(s: string)

  /** A chart item: whatever fields the caller's records have. */
  type Item = map<string, Value>

  const COLOR := "color"

  lemma {:induction false} PaletteDistinct()
    ensures |NEON_COLORS| == 6
    ensures forall i, j :: 0 <= i < j < 6 ==> NEON_COLORS[i] != NEON_COLORS[j]
  {
    assert NEON_COLORS[0][4] == '1' && NEON_COLORS[1][4] == '2' && NEON_COLORS[2][4] == '3';
    assert NEON_COLORS[3][4] == '1' && NEON_COLORS[4][4] == '3' && NEON_COLORS[5][4] == '2';
    assert NEON_COLORS[0][5] == '8' && NEON_COLORS[3][5] == '2';
    assert NEON_COLORS[1][5] == '7' && NEON_COLORS[5][5] == '2';
    assert NEON_COLORS[2][5] == '2' && NEON_COLORS[4][5] == '0';
  }

  /** `NEON_COLORS[index % NEON_COLORS.length]`. */
  function ColorAt(index: nat): string {
    NEON_COLORS[index % |NEON_COLORS|]
  }

  /** `data.map((item, index) => ({ ...item, color: ColorAt(index) }))`. */
  function AddColors(data: seq<Item>): (out: seq<Item>)
    ensures |out| == |data|
    ensures forall i :: 0 <= i < |out| ==> COLOR in out[i] && out[i][COLOR] == Text(ColorAt(i))
    ensures forall i, k :: 0 <= i < |out| && k != COLOR ==>
      (k in out[i] <==> k in data[i]) && (k in data[i] ==> out[i][k] == data[i][k])
  {
    seq(|data|, i requires 0 <= i < |data| => data[i][COLOR := Text(ColorAt(i))])
  }

  /** Colours repeat every six items. */
  lemma {:induction false} ColorPeriod(i: nat)
    ensures ColorAt(i + 6) == ColorAt(i)
  {
    assert (i + 6) % 6 == i % 6;
  }

  /** Any six neighbouring items get six different colours. */
  lemma {:induction false} NeighboursDistinct(i: nat, j: nat)
    requires i < j < i + 6
    ensures ColorAt(i) != ColorAt(j)
  {
    PaletteDistinct();
    var a, b := i % 6, j % 6;
    if a < b {
      assert NEON_COLORS[a] != NEON_COLORS[b];
    } else {
      assert NEON_COLORS[b] != NEON_COLORS[a];
    }
  }

  // ---------------------------------------------------------------- tooltip

  /** One payload entry handed to the tooltip by the chart library. */
  datatype Entry = Entry(name: Option<string>, value: Value, color: Option<string>)

  /** How an entry's value is shown: a formatted number, with or without a prefix, or the raw value. */
  datatype Shown = Number(prefix: string, n: Option<int>) | Raw(v: Value)

  /** One tooltip line: `{entry.name || 'Value'}: {shown}`. */
  datatype Line = Line(caption: string, shown: Shown)

  /** `String(entry.name || '')`. */
  function NameText(e: Entry): string {
    if e.name.Some? then e.name.value else ""
  }

  /** `String(entry.name || '').includes('Price') || ....includes('Revenue')`. */
  predicate IsMoney(e: Entry) {
    Includes(NameText(e), "Price") || Includes(NameText(e), "Revenue")
  }

  /** The characters the tooltip puts before a money value, as they stand in the file. */
  const PREFIX_AS_WRITTEN := "â‚¹"

  /** The rupee sign the metric cards use. */
  const RUPEE := "₹"

  /** One line for one entry, with `prefix` in front of money values. */
  function LineOf(e: Entry, prefix: string): (l: Line)
    requires prefix != ""
    ensures l.caption != ""
    ensures e.name.Some? && e.name.value != "" ==> l.caption == e.name.value
    ensures !(e.name.Some? && e.name.value != "") ==> l.caption == "Value"
    ensures l.shown.Number? <==> e.value.Num?
    ensures l.shown.Number? ==> l.shown.n == e.value.n && (l.shown.prefix == prefix <==> IsMoney(e))
    ensures l.shown.Number? && !IsMoney(e) ==> l.shown.prefix == ""
    ensures l.shown.Raw? ==> l.shown.v == e.value
  {
    var caption := if e.name.Some? && e.name.value != "" then e.name.value else "Value";
    match e.value
    case Num(n) => Line(caption, Number(if IsMoney(e) then prefix else "", n))
    case Text(_) => Line(caption, Raw(e.value))
  }

  /**
   * `CustomTooltip` with a given money prefix: nothing unless `active` and the payload
   * is present and non-empty; else one line per entry, in order.
   */
  function TooltipWith(active: bool, payload: Option<seq<Entry>>, prefix: string): (r: Option<seq<Line>>)
    requires prefix != ""
    ensures r.Some? <==> active && payload.Some? && |payload.value| > 0
    ensures r.Some? ==> |r.value| == |payload.value|
    ensures r.Some? ==> forall i :: 0 <= i < |r.value| ==> r.value[i] == LineOf(payload.value[i], prefix)
  {
    if active && payload.Some? && |payload.value| > 0 then
      Some(seq(|payload.value|, i requires 0 <= i < |payload.value| => LineOf(payload.value[i], prefix)))
    else None
  }

  /** The tooltip as written: the money prefix is the three characters above. */
  function TooltipAsWritten(active: bool, payload: Option<seq<Entry>>): Option<seq<Line>> {
    TooltipWith(active, payload, PREFIX_AS_WRITTEN)
  }

  /** The tooltip with the rupee sign the rest of the dashboard shows. */
  function Tooltip(active: bool, payload: Option<seq<Entry>>): Option<seq<Line>> {
    TooltipWith(active, payload, RUPEE)
  }

  /**
   * As written, a revenue entry's tooltip does not show the card's rupee sign: it
   * shows the three Windows-1252 characters whose codes are the UTF-8 bytes of that
   * sign (E2 82 B9).
   */
  lemma {:induction false} MojibakePrefix()
    ensures |RUPEE| == 1 && RUPEE[0] as int == 0x20B9
    ensures PREFIX_AS_WRITTEN != RUPEE
    ensures TooltipAsWritten(true, Some([Entry(Some("Revenue"), Num(Some(1200)), None)]))
      == Some([Line("Revenue", Number(PREFIX_AS_WRITTEN, Some(1200)))])
  {
    var e := Entry(Some("Revenue"), Num(Some(1200)), None);
    assert IsMoney(e) by {
      assert StartsWith("Revenue", "Revenue");
    }
    assert LineOf(e, PREFIX_AS_WRITTEN) == Line("Revenue", Number(PREFIX_AS_WRITTEN, Some(1200)));
    assert PREFIX_AS_WRITTEN[0] != RUPEE[0];
    var r := TooltipAsWritten(true, Some([e]));
    assert r.Some? && |r.value| == 1 && r.value[0] == LineOf(e, PREFIX_AS_WRITTEN);
    assert r.value == [LineOf(e, PREFIX_AS_WRITTEN)];
    assert |RUPEE| == 1;
    assert RUPEE[0] as int == 0x20B9;
  }

  /** With the correction, a revenue entry shows the same rupee sign as the revenue card. */
  lemma {:induction false} RupeePrefix(e: Entry)
    requires e.value.Num? && Includes(NameText(e), "Revenue")
    ensures Tooltip(true, Some([e])) == Some([LineOf(e, RUPEE)])
    ensures LineOf(e, RUPEE).shown == Number("₹", e.value.n)
  {
    assert IsMoney(e);
    var r := Tooltip(true, Some([e]));
    assert r.Some? && |r.value| == 1 && r.value[0] == LineOf(e, RUPEE);
    assert r.value == [LineOf(e, RUPEE)];
    assert LineOf(e, RUPEE).shown == Number(RUPEE, e.value.n);
  }
}
