/**
 * The rename pattern: `unicode(pattern).format(**meta)` restricted to the
 * subset of Python's format-string syntax the model covers: literal text
 * (with "{{" and "}}" standing for braces), `{key}`, and `{key:0N}`, which
 * zero-pads an integer to width N. Every other replacement field is
 * reported as Unsupported.
 */
module Pattern {
  import opened Wrappers
  import opened Text
  import opened Tags

  /** One piece of a parsed pattern. */
  datatype Segment = Lit(c: char) | Field(name: string) | Padded(name: string, width: nat)

  /** The ways a pattern can fail to parse (Python raises ValueError for the first two). */
  datatype PatternError = SingleClose | Unterminated | Unsupported(field: string)

  predicate IsSpecial(c: char)
  {
    c == '{' || c == '}' || c == '[' || c == ']' || c == ':' || c == '!' || c == '.'
  }

  /**
   * A keyword field name of the subset: no attribute access, indexing,
   * conversion or nested field, and not all digits (which would name a
   * positional argument, of which the rename passes none).
   */
  predicate ValidName(name: string)
  {
    name != [] && (forall i :: 0 <= i < |name| ==> !IsSpecial(name[i])) && !AllDigits(name)
  }

  /** The inside of a replacement field: `key` or `key:0N`. */
  function ParseField(body: string): Result<Segment, PatternError>
  {
    var i := FirstIndex(body, ':');
    if i == |body| then
      if ValidName(body) then Success(Field(body)) else Failure(Unsupported(body))
    else
      var name, spec := body[..i], body[i + 1..];
      if ValidName(name) && |spec| >= 2 && spec[0] == '0' && AllDigits(spec[1..]) then
        Success(Padded(name, DigitsValue(spec[1..])))
      else Failure(Unsupported(body))
  }

  function Cons(seg: Segment, rest: Result<seq<Segment>, PatternError>): Result<seq<Segment>, PatternError>
  {
    match rest
    case Success(segs) => Success([seg] + segs)
    case Failure(e) => Failure(e)
  }

  /** Splits a pattern into literal characters and replacement fields, left to right. */
  function Parse(p: string): Result<seq<Segment>, PatternError>
    decreases |p|
  {
    if p == [] then Success([])
    else if p[0] == '{' && |p| > 1 && p[1] == '{' then Cons(Lit('{'), Parse(p[2..]))
    else if p[0] == '}' && |p| > 1 && p[1] == '}' then Cons(Lit('}'), Parse(p[2..]))
    else if p[0] == '}' then Failure(SingleClose)
    else if p[0] == '{' then
      var j := FirstIndex(p, '}');
      if j == |p| then Failure(Unterminated)
      else
        match ParseField(p[1..j])
        case Failure(e) => Failure(e)
        case Success(seg) => Cons(seg, Parse(p[j + 1..]))
    else Cons(Lit(p[0]), Parse(p[1..]))
  }

  /** The pattern text of one segment; braces in literal text are doubled. */
  function PrintSegment(seg: Segment): string
  {
    match seg
    case Lit(c) => if c == '{' then "{{" else if c == '}' then "}}" else [c]
    case Field(name) => "{" + name + "}"
    case Padded(name, width) => "{" + name + ":0" + NatToString(width) + "}"
  }

  function Print(segs: seq<Segment>): string
  {
    if segs == [] then "" else PrintSegment(segs[0]) + Print(segs[1..])
  }

  predicate WellFormed(segs: seq<Segment>)
  {
    forall i :: 0 <= i < |segs| ==> segs[i].Lit? || ValidName(segs[i].name)
  }

  lemma {:induction false} FirstIndexAppend(a: string, b: string, c: char)
    requires forall i :: 0 <= i < |a| ==> a[i] != c
    ensures FirstIndex(a + b, c) == |a| + FirstIndex(b, c)
  {
    if a == [] {
      assert a + b == b;
    } else {
      assert (a + b)[1..] == a[1..] + b;
      FirstIndexAppend(a[1..], b, c);
    }
  }

  lemma ParseFieldOfName(name: string)
    requires ValidName(name)
    ensures ParseField(name) == Success(Field(name))
  {
    FirstIndexAppend(name, "", ':');
    assert name + "" == name;
  }

  lemma ParseFieldOfPadded(name: string, width: nat)
    requires ValidName(name)
    ensures ParseField(name + ":0" + NatToString(width)) == Success(Padded(name, width))
  {
    var digits := NatToString(width);
    var tail := ":0" + digits;
    var body := name + tail;
    assert name + ":0" + digits == body;
    var i := FirstIndex(body, ':');
    assert i == |name| by {
      FirstIndexAppend(name, tail, ':');
    }
    var spec := body[i + 1..];
    assert body[..i] == name;
    assert spec == "0" + digits;
    assert spec[0] == '0' && spec[1..] == digits && |spec| >= 2;
    assert DigitsValue(spec[1..]) == width by {
      DigitsOfNatToString(width);
    }
  }

  lemma ParseFieldOfPrint(seg: Segment)
    requires !seg.Lit? && ValidName(seg.name)
    ensures ParseField(FieldText(seg)) == Success(seg)
  {
    match seg
    case Field(name) =>
      ParseFieldOfName(name);
    case Padded(name, w) =>
      ParseFieldOfPadded(name, w);
  }

  /** Parsing consumes a printed segment and then goes on with what follows it. */
  lemma ParseSegment(seg: Segment, q: string)
    requires seg.Lit? || ValidName(seg.name)
    ensures Parse(PrintSegment(seg) + q) == Cons(seg, Parse(q))
  {
    if seg.Lit? {
      ParseLiteral(seg.c, q);
    } else {
      ParseReplacement(seg, q);
    }
  }

  lemma ParseLiteral(c: char, q: string)
    ensures Parse(PrintSegment(Lit(c)) + q) == Cons(Lit(c), Parse(q))
  {
    var p := PrintSegment(Lit(c)) + q;
    if c == '{' || c == '}' {
      assert p[2..] == q;
    } else {
      assert p[1..] == q;
    }
  }

  lemma ParseReplacement(seg: Segment, q: string)
    requires !seg.Lit? && ValidName(seg.name)
    ensures Parse(PrintSegment(seg) + q) == Cons(seg, Parse(q))
  {
    var inner := FieldText(seg);
    var p := PrintSegment(seg) + q;
    var j := |inner| + 1;
    FieldTextShape(seg);
    assert p == ("{" + inner) + ("}" + q) && |p| == j + 1 + |q|;
    assert FirstIndex(p, '}') == j by {
      FirstIndexAppend("{" + inner, "}" + q, '}');
    }
    assert ParseField(p[1..j]) == Success(seg) by {
      assert p[1..j] == inner;
      ParseFieldOfPrint(seg);
    }
    assert p[1] == inner[0];
    ParseOpen(p, seg);
    assert p[j + 1..] == q;
  }

  /** The text between the braces of a printed replacement field. */
  function FieldText(seg: Segment): string
    requires !seg.Lit?
  {
    if seg.Field? then seg.name else seg.name + ":0" + NatToString(seg.width)
  }

  lemma FieldTextShape(seg: Segment)
    requires !seg.Lit? && ValidName(seg.name)
    ensures var inner := FieldText(seg);
      inner != [] && inner[0] != '{' && forall i :: 0 <= i < |inner| ==> inner[i] != '}'
  {
    var inner := FieldText(seg);
    if seg.Padded? {
      var digits := NatToString(seg.width);
      forall i | 0 <= i < |inner| ensures inner[i] != '}' {
        if i < |seg.name| {
          assert inner[i] == seg.name[i];
        } else if i >= |seg.name| + 2 {
          assert inner[i] == digits[i - |seg.name| - 2];
        }
      }
      assert inner[0] == seg.name[0];
    }
  }

  /** A '{' not followed by another '{' opens a replacement field that runs to the next '}'. */
  lemma ParseOpen(p: string, seg: Segment)
    requires |p| > 1 && p[0] == '{' && p[1] != '{'
    requires FirstIndex(p, '}') < |p| && ParseField(p[1..FirstIndex(p, '}')]) == Success(seg)
    ensures Parse(p) == Cons(seg, Parse(p[FirstIndex(p, '}') + 1..]))
  {
  }

  /** Parsing the printed form of well-formed segments gives them back. */
  lemma {:induction false} ParsePrint(segs: seq<Segment>)
    requires WellFormed(segs)
    ensures Parse(Print(segs)) == Success(segs)
  {
    if segs != [] {
      assert WellFormed(segs[1..]);
      ParsePrint(segs[1..]);
      ParseSegment(segs[0], Print(segs[1..]));
      assert [segs[0]] + segs[1..] == segs;
    }
  }

  /** The errors `str.format` raises for a well-formed pattern. */
  datatype RenderError = MissingKey(key: string) | TextPadded(key: string)

  /**
   * A segment renders when it is literal text or names a key of the view,
   * and zero padding is asked for an integer only: Python refuses the '='
   * alignment that the '0' flag implies on a string.
   */
  predicate Renders(seg: Segment, view: map<string, Value>)
  {
    seg.Lit? || (seg.name in view && (seg.Padded? ==> view[seg.name].Num?))
  }

  /** `format(value, '')`: `str(n)` for an integer, the text itself otherwise. */
  function ValueText(v: Value): string
  {
    match v
    case Num(n) => NatToString(n)
    case Str(s) => s
  }

  /**
   * A plain field renders a text value as the text itself and an integer as
   * its decimal digits, which read back as that integer.
   */
  lemma FieldRendersValue(name: string, view: map<string, Value>)
    requires name in view
    ensures RenderSegment(Field(name), view).Success?
    ensures view[name].Str? ==> RenderSegment(Field(name), view).value == view[name].s
    ensures view[name].Num? ==> ParseNat(RenderSegment(Field(name), view).value) == Some(view[name].n)
  {
    if view[name].Num? {
      ParseNatToString(view[name].n);
    }
  }

  /**
   * A `{key:0N}` field of an integer renders as `str(n)` with zeros in
   * front up to N characters, which reads back as that integer.
   */
  lemma PaddedRendersValue(name: string, width: nat, view: map<string, Value>)
    requires name in view && view[name].Num?
    ensures RenderSegment(Padded(name, width), view).Success?
    ensures var r := RenderSegment(Padded(name, width), view).value;
      var digits := NatToString(view[name].n);
      && |r| == (if |digits| < width then width else |digits|)
      && r[|r| - |digits|..] == digits
      && (forall i :: 0 <= i < |r| - |digits| ==> r[i] == '0')
      && ParseNat(r) == Some(view[name].n)
  {
    ZeroPadSpec(NatToString(view[name].n), width);
    ParseZeroPadded(view[name].n, width);
  }

  function RenderSegment(seg: Segment, view: map<string, Value>): Result<string, RenderError>
  {
    match seg
    case Lit(c) => Success([c])
    case Field(name) =>
      if name !in view then Failure(MissingKey(name)) else Success(ValueText(view[name]))
    case Padded(name, width) =>
      if name !in view then Failure(MissingKey(name))
      else if view[name].Str? then Failure(TextPadded(name))
      else Success(ZeroPad(NatToString(view[name].n), width))
  }

  /** The texts `part` gives the segments, joined in order; the first failure wins. */
  function Join(part: Segment -> Result<string, RenderError>, segs: seq<Segment>): Result<string, RenderError>
  {
    if segs == [] then Success("")
    else
      match part(segs[0])
      case Failure(e) => Failure(e)
      case Success(s) =>
        match Join(part, segs[1..])
        case Failure(e) => Failure(e)
        case Success(t) => Success(s + t)
  }

  /** `str.format` over parsed segments: the first failing field raises. */
  function Render(segs: seq<Segment>, view: map<string, Value>): Result<string, RenderError>
  {
    Join(seg => RenderSegment(seg, view), segs)
  }

  /** A pattern of one segment renders as that segment does. */
  lemma RenderOne(seg: Segment, view: map<string, Value>)
    ensures Render([seg], view) == RenderSegment(seg, view)
  {
    var part := (s: Segment) => RenderSegment(s, view);
    assert Join(part, [seg][1..]) == Success("") by {
      assert [seg][1..] == [];
    }
    if RenderSegment(seg, view).Success? {
      assert RenderSegment(seg, view).value + "" == RenderSegment(seg, view).value;
    }
  }

  /** Rendering succeeds exactly when every segment renders. */
  lemma {:induction false} RenderSucceeds(segs: seq<Segment>, view: map<string, Value>)
    ensures Render(segs, view).Success? <==> forall i :: 0 <= i < |segs| ==> Renders(segs[i], view)
  {
    if segs != [] {
      RenderSucceeds(segs[1..], view);
      assert forall i :: 1 <= i < |segs| ==> segs[i] == segs[1..][i - 1];
    }
  }

  lemma {:induction false} JoinConcat(part: Segment -> Result<string, RenderError>, a: seq<Segment>, b: seq<Segment>)
    requires Join(part, a).Success? && Join(part, b).Success?
    ensures Join(part, a + b) == Success(Join(part, a).value + Join(part, b).value)
  {
    if a == [] {
      assert a + b == b;
      assert "" + Join(part, b).value == Join(part, b).value;
    } else {
      var h := part(a[0]).value;
      JoinConcat(part, a[1..], b);
      var x, y := Join(part, a[1..]).value, Join(part, b).value;
      assert (a + b)[0] == a[0];
      assert (a + b)[1..] == a[1..] + b;
      assert h + (x + y) == (h + x) + y;
    }
  }

  /** Rendering is compositional: the text of `a + b` is the text of `a` followed by that of `b`. */
  lemma RenderConcat(a: seq<Segment>, b: seq<Segment>, view: map<string, Value>)
    requires Render(a, view).Success? && Render(b, view).Success?
    ensures Render(a + b, view) == Success(Render(a, view).value + Render(b, view).value)
  {
    JoinConcat(seg => RenderSegment(seg, view), a, b);
  }

  /** Why formatting a file name can fail. */
  datatype FormatError = TagUnreadable | BadPattern(pattern: PatternError) | BadField(field: RenderError)

  /**
   * `unicode(pattern).format(**meta)`: the view is expanded for every key
   * first, then the pattern is rendered against it.
   */
  function FormatName(pattern: string, store: Store): Result<string, FormatError>
  {
    match Expand(store)
    case None => Failure(TagUnreadable)
    case Some(view) =>
      match Parse(pattern)
      case Failure(e) => Failure(BadPattern(e))
      case Success(segs) =>
        match Render(segs, view)
        case Failure(e) => Failure(BadField(e))
        case Success(name) => Success(name)
  }

  /**
   * A tag the pattern never mentions still stops the rename when its value
   * cannot be read, because `**meta` reads every key.
   */
  lemma FormatNeedsEveryTag(pattern: string, store: Store, key: string)
    requires key in store && Get(store, key).Failure?
    ensures FormatName(pattern, store) == Failure(TagUnreadable)
  {
  }

  /**
   * With every tag readable, a well-formed pattern names a file exactly
   * when each of its fields is present in the store and every padded field
   * is a number key.
   */
  lemma FormatSucceeds(segs: seq<Segment>, store: Store)
    requires WellFormed(segs)
    requires forall k :: k in store ==> Get(store, k).Success?
    ensures FormatName(Print(segs), store).Success? <==>
      forall i :: 0 <= i < |segs| && !segs[i].Lit? ==>
        segs[i].name in store && (segs[i].Padded? ==> IsNumberKey(segs[i].name))
  {
    ParsePrint(segs);
    assert Expand(store).Some?;
    var view := Expand(store).value;
    assert FormatName(Print(segs), store).Success? <==> Render(segs, view).Success?;
    RenderSucceeds(segs, view);
    forall i | 0 <= i < |segs|
      ensures Renders(segs[i], view) <==>
        (!segs[i].Lit? ==> segs[i].name in store && (segs[i].Padded? ==> IsNumberKey(segs[i].name)))
    {
      if !segs[i].Lit? {
        assert segs[i].name in view <==> segs[i].name in store;
        if segs[i].name in store {
          ViewIsNumber(store, segs[i].name);
        }
      }
    }
  }

  lemma ViewIsNumber(store: Store, key: string)
    requires forall k :: k in store ==> Get(store, k).Success?
    requires key in store
    ensures Expand(store).Some? && key in Expand(store).value
    ensures Expand(store).value[key].Num? <==> IsNumberKey(key)
  {
    assert Get(store, key).Success?;
  }
}
