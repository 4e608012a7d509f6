/**
 * The style registry of converter/processors/factory.py: a fixed table from style
 * names to processor classes, lookup with a ValueError for unknown names, and the
 * per-style descriptions (name and parameter descriptors) it advertises.
 */
module Factory {
  import opened Wrappers
  import opened Params
  import Sketch
  import Painting
  import Artistic

  /** Every processor class the processors package defines. */
  datatype Style =
    | PencilSketch | ColorPencil | InkDrawing | DetailedSketch
    | Cartoon | OilPainting | Watercolor | Mosaic | CelShading
    | Outline | Pointillism | Vintage

  /** The class method get_parameters of each processor class. */
  function Parameters(style: Style): (ps: seq<Param>)
    ensures ValidTable(ps)
  {
    match style
    case PencilSketch => Sketch.PencilSketchParameters()
    case ColorPencil => Sketch.ColorPencilParameters()
    case InkDrawing => Sketch.InkDrawingParameters()
    case DetailedSketch => Sketch.DetailedSketchParameters()
    case Cartoon => Painting.CartoonParameters()
    case OilPainting => Painting.OilPaintingParameters()
    case Watercolor => Painting.WatercolorParameters()
    case Mosaic => Painting.MosaicParameters()
    case CelShading => Painting.CelShadingParameters()
    case Outline => Artistic.OutlineParameters()
    case Pointillism => Artistic.PointillismParameters()
    case Vintage => Artistic.VintageParameters()
  }

  /**
   * ProcessorFactory.PROCESSORS, as its items in insertion order: eight distinct names,
   * each class registered at most once, and none of the pencil sketch, colour pencil,
   * outline or vintage classes among them.
   */
  function Processors(): (entries: seq<(string, Style)>)
    ensures |entries| == 8
    ensures KeysDistinct(entries)
    ensures forall i, j :: 0 <= i < j < |entries| ==> entries[i].1 != entries[j].1
    ensures forall i :: 0 <= i < |entries| ==>
      entries[i].1 != PencilSketch && entries[i].1 != ColorPencil &&
      entries[i].1 != Outline && entries[i].1 != Vintage
  {
    [ ("ink_drawing", InkDrawing),
      ("detailed_sketch", DetailedSketch),
      ("oil_painting", OilPainting),
      ("cartoon", Cartoon),
      ("watercolor", Watercolor),
      ("mosaic", Mosaic),
      ("cel_shading", CelShading),
      ("pointillism", Pointillism) ]
  }

  /** The style the request handler falls back to when a request names none. */
  const DefaultRequestStyle := "pencil_sketch"

  /** list(d.keys()) of a dict given by its items. */
  function Keys(entries: seq<(string, Style)>): seq<string>
  {
    seq(|entries|, i requires 0 <= i < |entries| => entries[i].0)
  }

  predicate KeysDistinct(entries: seq<(string, Style)>)
  {
    forall i, j :: 0 <= i < j < |entries| ==> entries[i].0 != entries[j].0
  }

  /** d.get(name) of a dict given by its items: the class stored under name, if any. */
  function Get(entries: seq<(string, Style)>, name: string): (r: Option<Style>)
    ensures r.Some? <==> name in Keys(entries)
    ensures r.Some? ==> (name, r.value) in entries
    ensures KeysDistinct(entries) ==>
      forall i :: 0 <= i < |entries| && entries[i].0 == name ==> r == Some(entries[i].1)
  {
    if |entries| == 0 then None
    else
      assert Keys(entries) == [entries[0].0] + Keys(entries[1..]);
      if entries[0].0 == name then Some(entries[0].1)
      else
        assert forall i :: 1 <= i < |entries| ==> entries[i] == entries[1..][i - 1];
        Get(entries[1..], name)
  }

  /** Python's repr of a string without quotes or escapes in it. */
  function Quote(s: string): string
  {
    "'" + s + "'"
  }

  function JoinQuoted(items: seq<string>): string
  {
    if |items| == 0 then ""
    else if |items| == 1 then Quote(items[0])
    else Quote(items[0]) + ", " + JoinQuoted(items[1..])
  }

  /** Python's repr of a list of such strings. */
  function ListRepr(items: seq<string>): string
  {
    "[" + JoinQuoted(items) + "]"
  }

  /** part is the slice of whole that starts at index i. */
  predicate OccursAt(part: string, whole: string, i: int)
  {
    0 <= i <= |whole| - |part| && whole[i..i + |part|] == part
  }

  ghost predicate OccursIn(part: string, whole: string)
  {
    exists i :: OccursAt(part, whole, i)
  }

  lemma OccursInContext(part: string, before: string, middle: string, after: string)
    requires OccursIn(part, middle)
    ensures OccursIn(part, before + middle + after)
  {
    var i :| OccursAt(part, middle, i);
    var whole := before + middle + after;
    assert whole[|before| + i..|before| + i + |part|] == middle[i..i + |part|];
    assert OccursAt(part, whole, |before| + i);
  }

  /** Every item of the list appears, quoted, in its repr. */
  lemma {:induction false} JoinQuotedListsItem(items: seq<string>, k: string)
    requires k in items
    ensures OccursIn(Quote(k), JoinQuoted(items))
  {
    if items[0] == k {
      var j := JoinQuoted(items);
      if |items| == 1 {
        assert j[0..|Quote(k)|] == Quote(k);
      } else {
        assert j == Quote(k) + (", " + JoinQuoted(items[1..]));
        assert j[0..|Quote(k)|] == Quote(k);
      }
      assert OccursAt(Quote(k), j, 0);
    } else {
      JoinQuotedListsItem(items[1..], k);
      OccursInContext(Quote(k), Quote(items[0]) + ", ", JoinQuoted(items[1..]), "");
      assert Quote(items[0]) + ", " + JoinQuoted(items[1..]) + "" == JoinQuoted(items);
    }
  }

  /**
   * f"Unknown style: {style}. Available: {list(keys)}": the style named up front, then
   * the repr of the key list, in which every key appears quoted.
   */
  function UnknownStyleMessage(style: string, keys: seq<string>): (message: string)
    ensures |message| > 15 + |style| && message[..15 + |style|] == "Unknown style: " + style
    ensures forall key :: key in keys ==> OccursIn(Quote(key), message)
  {
    var before := "Unknown style: " + style + ". Available: ";
    var message := before + ListRepr(keys);
    assert message[..15 + |style|] == "Unknown style: " + style;
    assert forall key :: key in keys ==> OccursIn(Quote(key), message) by {
      forall key | key in keys
        ensures OccursIn(Quote(key), message)
      {
        JoinQuotedListsItem(keys, key);
        OccursInContext(Quote(key), "[", JoinQuoted(keys), "]");
        OccursInContext(Quote(key), before, ListRepr(keys), "");
        assert before + ListRepr(keys) + "" == message;
      }
    }
    message
  }

  /** The registered names, in table order. */
  lemma RegisteredNames()
    ensures Keys(Processors()) == ["ink_drawing", "detailed_sketch", "oil_painting", "cartoon",
                                 "watercolor", "mosaic", "cel_shading", "pointillism"]
  {
  }

  /**
   * ProcessorFactory.get_processor: the processor registered under style, or a
   * ValueError whose message lists the registered names in table order.
   */
  function GetProcessor(style: string): (r: Result<Style, string>)
    ensures r.Success? <==> style in Keys(Processors())
    ensures r.Success? ==> (style, r.value) in Processors()
    ensures r.Success? ==> forall i :: 0 <= i < |Processors()| && Processors()[i].0 == style ==> r.value == Processors()[i].1
    ensures r.Failure? ==> r.error == UnknownStyleMessage(style, Keys(Processors()))
  {
    match Get(Processors(), style)
    case Some(processor) => Success(processor)
    case None => Failure(UnknownStyleMessage(style, Keys(Processors())))
  }

  /**
   * Pencil sketch, colour pencil, outline and vintage are defined but not registered:
   * get_processor rejects their names, the request handler's default included.
   */
  lemma UnregisteredStylesRejected(style: string)
    requires style in {"pencil_sketch", "color_pencil", "outline", "vintage"}
    ensures GetProcessor(style) == Failure(UnknownStyleMessage(style, Keys(Processors())))
  {
    RegisteredNames();
    // Each of these names differs from every key in its length or its first letter.
    assert forall k :: k in Keys(Processors()) ==> |k| != |style| || k[0] != style[0];
  }

  /** A request that names no style is answered with get_processor's ValueError. */
  lemma DefaultRequestStyleRejected()
    ensures GetProcessor(DefaultRequestStyle) == Failure(UnknownStyleMessage(DefaultRequestStyle, Keys(Processors())))
  {
    UnregisteredStylesRejected(DefaultRequestStyle);
  }

  /** One entry of the styles listing: {'name': ..., 'parameters': ...}. */
  datatype StyleInfo = StyleInfo(name: string, parameters: seq<Param>)

  /** ProcessorFactory.get_style_info: the entry for a registered style, else a ValueError. */
  function GetStyleInfo(style: string): (r: Result<StyleInfo, string>)
    ensures r.Success? <==> GetProcessor(style).Success?
    ensures r.Success? ==> r.value.name == style && r.value.parameters == Parameters(GetProcessor(style).value)
    ensures r.Failure? ==> r.error == "Unknown style: " + style
  {
    match Get(Processors(), style)
    case Some(processor) => Success(StyleInfo(style, Parameters(processor)))
    case None => Failure("Unknown style: " + style)
  }

  /**
   * ProcessorFactory.available_styles: one entry per registered style, each the same
   * as get_style_info gives for that name.
   */
  method AvailableStyles() returns (styles: map<string, StyleInfo>)
    ensures forall name :: name in styles <==> GetProcessor(name).Success?
    ensures forall name :: name in styles ==> GetStyleInfo(name) == Success(styles[name])
  {
    var entries := Processors();
    styles := map[];
    for i := 0 to |entries|
      invariant forall name :: name in styles <==> exists j :: 0 <= j < i && entries[j].0 == name
      invariant forall j :: 0 <= j < i ==>
        entries[j].0 in styles &&
        styles[entries[j].0] == StyleInfo(entries[j].0, Parameters(entries[j].1))
    {
      var (name, processor) := entries[i];
      styles := styles[name := StyleInfo(name, Parameters(processor))];
    }
  }
}
