/**
  `ClaudeAnalyzer._build_prompt`: the text sent to the language model, built
  from the profile dict and the metrics dict by f-string interpolation. Every
  line but the fixed ones shows one value, with `'N/A'` or `0` standing in for
  what is missing. Interpolation can raise (slicing an int, `len` of a number,
  `format(text, ',')`); such an exception propagates and is a `Failure`.
*/
module PromptCompiler {
  import opened Wrappers
  import opened PyNumbers
  import opened PyValues
  import opened MetricsNormalizer
  import opened ProfileFields

  const Placeholder: string := "N/A"

  /** What follows the photo count in its row. */
  const PhotosSuffix: string := " fotos subidas"

  /** How much of the description the prompt keeps. */
  const DescriptionLimit: nat := 200

  /** The five-point instruction that opens the prompt. */
  const Header: string :=
    "Eres un experto en optimización de Google My Business (GMB). \n"
    + "Analiza el siguiente perfil de negocio y proporciona un reporte detallado en español con:\n\n"
    + "1. **Puntuación General** (0-100): Califica la optimización del perfil\n"
    + "2. **Análisis Fortalezas**: Qué está bien hecho\n"
    + "3. **Áreas de Mejora**: Qué se puede optimizar\n"
    + "4. **Recomendaciones Prioritarias**: Top 3 acciones para mejorar visibilidad\n"
    + "5. **Estimación de Impacto**: Qué resultados se podrían esperar\n\n"

  /** The closing request for a concrete, readable answer. */
  const Footer: string :=
    "\n\nSé específico, conciso y actionable. Usa emojis para hacerlo legible. \n"
    + "Proporciona recomendaciones que el usuario pueda implementar hoy mismo."

  const ProfileHeading: string := "\n## Información del Perfil:\n"
  const MetricsHeading: string := "\n## Métricas (últimos 30 días):\n"

  /** Python's `s[:n]`. */
  function Prefix<T>(s: seq<T>, n: nat): (r: seq<T>)
    ensures |r| == (if |s| <= n then |s| else n)
    ensures r == s[..|r|]
  {
    if |s| <= n then s else s[..n]
  }

  /** `f"{profile.get(key, 'N/A')}"`. */
  function FieldText(profile: Dict, f: Field): string {
    Str(GetOr(profile, f.Key(), JStr(Placeholder)))
  }

  /** `f"{profile.get('description', 'N/A')[:200]}..."`: a str or a list can be
      sliced, anything else raises a TypeError. */
  function DescriptionText(profile: Dict): Result<string, PyError> {
    match GetOr(profile, Description.Key(), JStr(Placeholder))
    case JStr(s) => Success(Prefix(s, DescriptionLimit) + "...")
    case JList(items) => Success(Repr(JList(Prefix(items, DescriptionLimit))) + "...")
    case _ => Failure(TypeError)
  }

  /** `f"{profile.get('address', {}).get('addressLines', ['N/A'])[0] if
      profile.get('address') else 'N/A'}"`. A truthy address that is not a dict
      has no `get` (AttributeError); the first element of an empty list or
      string is an IndexError; a dict indexed by 0 is a KeyError, since JSON
      keys are strings; any other value is not subscriptable (TypeError). */
  function AddressText(profile: Dict): Result<string, PyError> {
    var address := Get(profile, Address.Key());
    if address.None? || !Truthy(address.value) then Success(Placeholder)
    else
      match address.value
      case JObj(members) =>
        (match GetOr(members, "addressLines", JList([JStr(Placeholder)]))
         case JList(items) => if items == [] then Failure(IndexError) else Success(Str(items[0]))
         case JStr(s) => if s == "" then Failure(IndexError) else Success([s[0]])
         case JObj(_) => Failure(KeyError)
         case _ => Failure(TypeError))
      case _ => Failure(AttributeError)
  }

  /** `len(profile.get('photos', []))`. */
  function PhotoCount(profile: Dict): Result<nat, PyError> {
    match PyLen(GetOr(profile, Photos.Key(), JList([])))
    case Some(n) => Success(n)
    case None => Failure(TypeError)
  }

  /** `f"{performance.get(key, 0):,}"`: ints (booleans among them) take the
      separators; a str refuses the `,` format (ValueError); other values have
      no such format (TypeError). */
  function CounterText(performance: Dict, c: Counter): Result<string, PyError> {
    match GetOr(performance, c.Key(), JInt(0))
    case JInt(i) => Success(FormatThousands(i))
    case JBool(b) => Success(if b then "1" else "0")
    case JStr(_) => Failure(ValueError)
    case _ => Failure(TypeError)
  }

  /** One `- label: value` line of a block. */
  datatype Row = Row(caption: string, text: string)

  function Line(row: Row): string {
    "- " + row.caption + ": " + row.text + "\n"
  }

  function Render(rows: seq<Row>): string {
    if rows == [] then "" else Line(rows[0]) + Render(rows[1..])
  }

  /** The profile block's eight rows. The f-string evaluates its fields in
      order; only the description, the address and the photo count can raise,
      and the first of them that does is the exception. */
  function ProfileRows(profile: Dict): Result<seq<Row>, PyError> {
    var description :- DescriptionText(profile);
    var address :- AddressText(profile);
    var photos :- PhotoCount(profile);
    Success([
      Row(Caption(Title), FieldText(profile, Title)),
      Row(Caption(Type), FieldText(profile, Type)),
      Row(Caption(PhoneNumber), FieldText(profile, PhoneNumber)),
      Row(Caption(WebsiteUrl), FieldText(profile, WebsiteUrl)),
      Row(Caption(Description), description),
      Row(Caption(Address), address),
      Row(Caption(BusinessHours), FieldText(profile, BusinessHours)),
      Row(Caption(Photos), Decimal(photos) + PhotosSuffix)
    ])
  }

  /** The caption of a field's row in the profile block. */
  function Caption(f: Field): string {
    match f
    case Title => "Nombre"
    case Type => "Categoría"
    case PhoneNumber => "Teléfono"
    case WebsiteUrl => "Sitio web"
    case Description => "Descripción"
    case Address => "Dirección"
    case BusinessHours => "Horarios"
    case Photos => "Fotos"
  }

  /** The counters in the order the metrics block lists them. */
  const MetricOrder: seq<Counter> := [Views, QueriesDirect, QueriesIndirect, Calls, Directions, WebsiteClicks]

  function MetricLabel(c: Counter): string {
    match c
    case Views => "Vistas"
    case QueriesDirect => "Búsquedas directas"
    case QueriesIndirect => "Búsquedas indirectas"
    case Calls => "Llamadas"
    case Directions => "Direcciones solicitadas"
    case WebsiteClicks => "Clics al sitio"
  }

  /** One row per counter of `order`, or the first counter's exception. */
  function MetricRows(performance: Dict, order: seq<Counter>): Result<seq<Row>, PyError> {
    if order == [] then Success([])
    else
      var text :- CounterText(performance, order[0]);
      var rest :- MetricRows(performance, order[1..]);
      Success([Row(MetricLabel(order[0]), text)] + rest)
  }

  function ProfileBlock(profile: Dict): Result<string, PyError> {
    var rows :- ProfileRows(profile);
    Success(ProfileHeading + Render(rows))
  }

  function MetricsBlock(performance: Dict): Result<string, PyError> {
    var rows :- MetricRows(performance, MetricOrder);
    Success(MetricsHeading + Render(rows))
  }

  /** `_build_prompt(profile, performance)`. */
  function BuildPrompt(profile: Dict, performance: Dict): Result<string, PyError> {
    var profileInfo :- ProfileBlock(profile);
    var performanceInfo :- MetricsBlock(performance);
    Success(Header + profileInfo + "\n\n" + performanceInfo + Footer)
  }

  // ---------------------------------------------------------------------------
  // What the prompt shows

  /** `part` stands in `text` from index `i` on. */
  predicate OccursAt(text: string, part: string, i: int) {
    0 <= i <= |text| - |part| && text[i..i + |part|] == part
  }

  /** `part` stands somewhere in `text`. */
  predicate Occurs(text: string, part: string) {
    exists i :: 0 <= i <= |text| && OccursAt(text, part, i)
  }

  lemma OccursBetween(before: string, part: string, after: string)
    ensures Occurs(before + part + after, part)
  {
    var t := before + part + after;
    assert t[|before|..|before| + |part|] == part;
    assert OccursAt(t, part, |before|);
  }

  /** What stands in a block stands in any text built around the block. */
  lemma OccursWithin(before: string, block: string, after: string, part: string)
    requires Occurs(block, part)
    ensures Occurs(before + block + after, part)
  {
    var i :| 0 <= i <= |block| && OccursAt(block, part, i);
    var t := before + block + after;
    assert t[|before| + i..|before| + i + |part|] == block[i..i + |part|];
    assert OccursAt(t, part, |before| + i);
  }

  /** What stands in a block stands in the block behind a heading. */
  lemma OccursAfter(heading: string, block: string, part: string)
    requires Occurs(block, part)
    ensures Occurs(heading + block, part)
  {
    var i :| 0 <= i <= |block| && OccursAt(block, part, i);
    var t := heading + block;
    assert t[|heading| + i..|heading| + i + |part|] == block[i..i + |part|];
    assert OccursAt(t, part, |heading| + i);
  }

  /** The parts of an assembled prompt stand where they were put: the header
      first, the profile block after it, the metrics block two newlines later,
      the footer last. */
  lemma Assembled(h: string, p: string, m: string, f: string, r: string)
    requires r == h + p + "\n\n" + m + f
    ensures |r| == |h| + |p| + 2 + |m| + |f|
    ensures r[..|h|] == h
    ensures r[|h|..|h| + |p|] == p
    ensures r[|h| + |p| + 2..|h| + |p| + 2 + |m|] == m
    ensures r[|r| - |f|..] == f
  {
  }

  /** A part of either block stands in the assembled prompt. */
  lemma OccursInPrompt(h: string, p: string, m: string, f: string, part: string)
    requires Occurs(p, part) || Occurs(m, part)
    ensures Occurs(h + p + "\n\n" + m + f, part)
  {
    if Occurs(p, part) {
      OccursWithin(h, p, "\n\n" + m + f, part);
      assert h + p + ("\n\n" + m + f) == h + p + "\n\n" + m + f;
    } else {
      OccursWithin(h + p + "\n\n", m, f, part);
    }
  }

  /** A missing field shows the placeholder; a str field shows as it is. */
  lemma FieldPlaceholder(profile: Dict, f: Field)
    ensures Get(profile, f.Key()).None? ==> FieldText(profile, f) == Placeholder
    ensures Get(profile, f.Key()).Some? && Get(profile, f.Key()).value.JStr? ==>
              FieldText(profile, f) == Get(profile, f.Key()).value.s
    ensures Get(profile, f.Key()).Some? && Get(profile, f.Key()).value.JInt? ==>
              FieldText(profile, f) == Decimal(Get(profile, f.Key()).value.i)
  {
  }

  /** The description line holds the first `min(200, len)` characters and
      always ends in "...", even when nothing was cut. */
  lemma DescriptionTruncated(profile: Dict, s: string)
    requires Get(profile, Description.Key()) == Some(JStr(s))
    ensures DescriptionText(profile).Success?
    ensures |DescriptionText(profile).value| == (if |s| <= 200 then |s| else 200) + 3
    ensures DescriptionText(profile).value ==
            s[..|DescriptionText(profile).value| - 3] + "..."
    ensures |s| <= 200 ==> DescriptionText(profile).value == s + "..."
  {
    assert GetOr(profile, Description.Key(), JStr(Placeholder)) == JStr(s);
  }

  /** No description: "N/A...". */
  lemma DescriptionAbsent(profile: Dict)
    requires Get(profile, Description.Key()).None?
    ensures DescriptionText(profile) == Success("N/A...")
  {
    assert Prefix(Placeholder, DescriptionLimit) == Placeholder;
    assert Placeholder + "..." == "N/A...";
  }

  /** The address line is the placeholder when the address is missing or falsy,
      or is a dict without `addressLines`; otherwise it is the first line. */
  lemma AddressLine(profile: Dict)
    ensures Get(profile, Address.Key()).None? ==> AddressText(profile) == Success(Placeholder)
    ensures Get(profile, Address.Key()).Some? && !Truthy(Get(profile, Address.Key()).value) ==>
              AddressText(profile) == Success(Placeholder)
    ensures Get(profile, Address.Key()).Some? && Get(profile, Address.Key()).value.JObj? &&
            Truthy(Get(profile, Address.Key()).value) &&
            Get(Get(profile, Address.Key()).value.members, "addressLines").None? ==>
              AddressText(profile) == Success(Placeholder)
  {
  }

  /** A list of address lines shows its first line. */
  lemma AddressFirstLine(profile: Dict, members: Dict, lines: seq<Json>)
    requires Get(profile, Address.Key()) == Some(JObj(members)) && members != []
    requires Get(members, "addressLines") == Some(JList(lines)) && lines != []
    ensures AddressText(profile) == Success(Str(lines[0]))
  {
  }

  /** The address line raises exactly when the address is truthy and either not a
      dict, or its `addressLines` is neither a nonempty list nor a nonempty str. */
  lemma AddressFailsIff(profile: Dict)
    ensures AddressText(profile).Failure? <==>
            && Get(profile, Address.Key()).Some?
            && Truthy(Get(profile, Address.Key()).value)
            && (|| !Get(profile, Address.Key()).value.JObj?
                || !NonemptySequence(GetOr(Get(profile, Address.Key()).value.members, "addressLines",
                                           JList([JStr(Placeholder)]))))
  {
  }

  predicate NonemptySequence(v: Json) {
    (v.JList? && v.items != []) || (v.JStr? && v.s != "")
  }

  /** The photo count is the length of the photo list, 0 when there is none. */
  lemma PhotoCountShown(profile: Dict)
    ensures Get(profile, Photos.Key()).None? ==> PhotoCount(profile) == Success(0)
    ensures Get(profile, Photos.Key()).Some? && Get(profile, Photos.Key()).value.JList? ==>
              PhotoCount(profile) == Success(|Get(profile, Photos.Key()).value.items|)
    ensures PhotoCount(profile).Failure? <==>
              Get(profile, Photos.Key()).Some? && PyLen(Get(profile, Photos.Key()).value).None?
  {
  }

  /** A missing counter shows as 0. */
  lemma CounterAbsent(performance: Dict, c: Counter)
    requires Get(performance, c.Key()).None?
    ensures CounterText(performance, c) == Success("0")
  {
  }

  /** An int counter shows with separators; that text without its separators
      is `str` of the int, and reads back as the same int when it has at most
      `MaxStrDigits` digits. */
  lemma CounterShown(performance: Dict, c: Counter, i: int)
    requires Get(performance, c.Key()) == Some(JInt(i))
    ensures CounterText(performance, c) == Success(FormatThousands(i))
    ensures Without(FormatThousands(i), ',') == Decimal(i)
    ensures ParseIntLiteral(Without(FormatThousands(i), ',')) ==
            if DigitCount(i) <= MaxStrDigits then Some(i) else None
  {
    ThousandsWithoutCommas(i);
    ParseThousands(i);
  }

  /** The separators of a non-negative counter. */
  lemma CounterGrouping(performance: Dict, c: Counter, n: nat)
    requires Get(performance, c.Key()) == Some(JInt(n))
    ensures CounterText(performance, c).Success?
    ensures var t := CounterText(performance, c).value;
            forall k :: 0 <= k < |t| ==> (t[k] == ',' <==> k > 0 && (|t| - k) % 4 == 0)
  {
    GroupedCommaPositions(n);
  }

  /** The counters raise exactly when one of them is a value `format(_, ',')`
      refuses. */
  lemma {:induction false} MetricRowsFailIff(performance: Dict, order: seq<Counter>)
    ensures MetricRows(performance, order).Failure? <==>
            exists k :: 0 <= k < |order| && CounterText(performance, order[k]).Failure?
    ensures MetricRows(performance, order).Success? ==>
              && |MetricRows(performance, order).value| == |order|
              && forall k :: 0 <= k < |order| ==>
                   MetricRows(performance, order).value[k] ==
                   Row(MetricLabel(order[k]), CounterText(performance, order[k]).value)
  {
    if order != [] {
      MetricRowsFailIff(performance, order[1..]);
      var tail := order[1..];
      if CounterText(performance, order[0]).Failure? {
        assert MetricRows(performance, order).Failure?;
      } else if MetricRows(performance, tail).Failure? {
        var j :| 0 <= j < |tail| && CounterText(performance, tail[j]).Failure?;
        assert tail[j] == order[j + 1];
      } else {
        var rows := MetricRows(performance, order).value;
        var rest := MetricRows(performance, tail).value;
        assert rows == [Row(MetricLabel(order[0]), CounterText(performance, order[0]).value)] + rest;
        forall k | 0 <= k < |order|
          ensures CounterText(performance, order[k]).Success?
          ensures rows[k] == Row(MetricLabel(order[k]), CounterText(performance, order[k]).value)
        {
          if k > 0 {
            assert order[k] == tail[k - 1] && rows[k] == rest[k - 1];
          }
        }
      }
    }
  }

  /** Every row's line stands in the rendered block, after the rows before it. */
  lemma RenderSplit(rows: seq<Row>, k: nat)
    requires k < |rows|
    ensures Render(rows) == Render(rows[..k]) + Line(rows[k]) + Render(rows[k + 1..])
  {
    SplitAt(rows, k);
    RenderConcat(rows[..k], [rows[k]] + rows[k + 1..]);
    RenderCons(rows[k], rows[k + 1..]);
    Regroup(Render(rows[..k]), Line(rows[k]), Render(rows[k + 1..]));
  }

  lemma SplitAt<T>(s: seq<T>, k: nat)
    requires k < |s|
    ensures s == s[..k] + ([s[k]] + s[k + 1..])
  {
  }

  lemma RenderCons(row: Row, rows: seq<Row>)
    ensures Render([row] + rows) == Line(row) + Render(rows)
  {
    assert ([row] + rows)[1..] == rows;
  }

  lemma Regroup(a: string, b: string, c: string)
    ensures a + (b + c) == a + b + c
  {
  }

  /** Rendering distributes over concatenation of rows. */
  lemma {:induction false} RenderConcat(a: seq<Row>, b: seq<Row>)
    ensures Render(a + b) == Render(a) + Render(b)
  {
    if a == [] {
      assert a + b == b;
    } else {
      assert (a + b)[1..] == a[1..] + b;
      RenderConcat(a[1..], b);
    }
  }

  /** `BuildPrompt`, once it succeeds, in terms of its two blocks. */
  lemma PromptParts(profile: Dict, performance: Dict, r: string)
    requires BuildPrompt(profile, performance) == Success(r)
    ensures ProfileRows(profile).Success? && MetricRows(performance, MetricOrder).Success?
    ensures ProfileBlock(profile).value == ProfileHeading + Render(ProfileRows(profile).value)
    ensures MetricsBlock(performance).value == MetricsHeading + Render(MetricRows(performance, MetricOrder).value)
    ensures r == Header + ProfileBlock(profile).value + "\n\n" + MetricsBlock(performance).value + Footer
  {
  }

  /** The prompt is the header, the profile block, the metrics block and the
      footer, in that order (see `Assembled` for where each stands), and each
      block opens with its heading. */
  lemma PromptLayout(profile: Dict, performance: Dict, r: string)
    requires BuildPrompt(profile, performance) == Success(r)
    ensures ProfileBlock(profile).Success? && MetricsBlock(performance).Success?
    ensures r == Header + ProfileBlock(profile).value + "\n\n" + MetricsBlock(performance).value + Footer
    ensures |ProfileHeading| <= |ProfileBlock(profile).value|
    ensures ProfileBlock(profile).value[..|ProfileHeading|] == ProfileHeading
    ensures |MetricsHeading| <= |MetricsBlock(performance).value|
    ensures MetricsBlock(performance).value[..|MetricsHeading|] == MetricsHeading
    ensures |Header| + |Footer| <= |r| && r[..|Header|] == Header && r[|r| - |Footer|..] == Footer
  {
    PromptParts(profile, performance, r);
    Assembled(Header, ProfileBlock(profile).value, MetricsBlock(performance).value, Footer, r);
  }

  /** A row's line stands in a prompt assembled around the block it is rendered in. */
  lemma RowInPrompt(h: string, heading: string, rows: seq<Row>, other: string, f: string, k: nat, first: bool)
    requires k < |rows|
    ensures first ==> Occurs(h + (heading + Render(rows)) + "\n\n" + other + f, Line(rows[k]))
    ensures !first ==> Occurs(h + other + "\n\n" + (heading + Render(rows)) + f, Line(rows[k]))
  {
    RenderSplit(rows, k);
    var block := heading + Render(rows);
    OccursBetween(Render(rows[..k]), Line(rows[k]), Render(rows[k + 1..]));
    OccursAfter(heading, Render(rows), Line(rows[k]));
    if first {
      OccursInPrompt(h, block, other, f, Line(rows[k]));
    } else {
      OccursInPrompt(h, other, block, f, Line(rows[k]));
    }
  }

  /** Each profile row's line stands in the prompt. */
  lemma ProfileRowShown(profile: Dict, performance: Dict, r: string, rows: seq<Row>, k: nat)
    requires BuildPrompt(profile, performance) == Success(r)
    requires ProfileRows(profile) == Success(rows) && k < |rows|
    ensures Occurs(r, Line(rows[k]))
  {
    PromptParts(profile, performance, r);
    RowInPrompt(Header, ProfileHeading, rows, MetricsBlock(performance).value, Footer, k, true);
  }

  /** Each counter's line stands in the prompt. */
  lemma MetricRowShown(profile: Dict, performance: Dict, r: string, k: nat)
    requires BuildPrompt(profile, performance) == Success(r) && k < |MetricOrder|
    ensures CounterText(performance, MetricOrder[k]).Success?
    ensures Occurs(r, Line(Row(MetricLabel(MetricOrder[k]), CounterText(performance, MetricOrder[k]).value)))
  {
    PromptParts(profile, performance, r);
    MetricRowsFailIff(performance, MetricOrder);
    RowInPrompt(Header, MetricsHeading, MetricRows(performance, MetricOrder).value,
                ProfileBlock(profile).value, Footer, k, false);
  }

  /** The row of the profile block that shows a field. */
  function RowOf(f: Field): (k: nat)
    ensures k < 8
  {
    match f
    case Title => 0
    case Type => 1
    case PhoneNumber => 2
    case WebsiteUrl => 3
    case Description => 4
    case Address => 5
    case BusinessHours => 6
    case Photos => 7
  }

  /** A missing plain field, or a missing address, shows 'N/A' in its row. */
  lemma PlaceholderRow(profile: Dict, f: Field)
    requires ProfileRows(profile).Success? && f != Description && f != Photos
    requires Get(profile, f.Key()).None?
    ensures |ProfileRows(profile).value| == 8
    ensures ProfileRows(profile).value[RowOf(f)] == Row(Caption(f), Placeholder)
  {
    ProfileRowsShape(profile);
    FieldPlaceholder(profile, f);
    if f == Address {
      AddressLine(profile);
    }
  }

  /** The eight rows of a profile block that succeeds, spelled out. */
  lemma ProfileRowsShape(profile: Dict)
    requires ProfileRows(profile).Success?
    ensures DescriptionText(profile).Success? && AddressText(profile).Success? && PhotoCount(profile).Success?
    ensures ProfileRows(profile).value == [
              Row(Caption(Title), FieldText(profile, Title)),
              Row(Caption(Type), FieldText(profile, Type)),
              Row(Caption(PhoneNumber), FieldText(profile, PhoneNumber)),
              Row(Caption(WebsiteUrl), FieldText(profile, WebsiteUrl)),
              Row(Caption(Description), DescriptionText(profile).value),
              Row(Caption(Address), AddressText(profile).value),
              Row(Caption(BusinessHours), FieldText(profile, BusinessHours)),
              Row(Caption(Photos), Decimal(PhotoCount(profile).value) + PhotosSuffix)]
  {
  }

  /** A missing description shows as "N/A...". */
  lemma DescriptionPlaceholderRow(profile: Dict)
    requires ProfileRows(profile).Success? && Get(profile, Description.Key()).None?
    ensures ProfileRows(profile).value[4] == Row(Caption(Description), "N/A...")
  {
    DescriptionAbsent(profile);
  }

  /** Missing photos show as "0 fotos subidas". */
  lemma PhotosPlaceholderRow(profile: Dict)
    requires ProfileRows(profile).Success? && Get(profile, Photos.Key()).None?
    ensures ProfileRows(profile).value[7] == Row(Caption(Photos), "0" + PhotosSuffix)
  {
    PhotoCountShown(profile);
    PhotosRow(profile);
    assert Decimal(0) == "0";
  }

  /** The last profile row shows the photo count. */
  lemma PhotosRow(profile: Dict)
    requires ProfileRows(profile).Success?
    ensures PhotoCount(profile).Success? && |ProfileRows(profile).value| == 8
    ensures ProfileRows(profile).value[7] ==
            Row(Caption(Photos), Decimal(PhotoCount(profile).value) + PhotosSuffix)
  {
  }

  /** A missing plain field or address stands in the prompt as, say,
      "- Nombre: N/A". */
  lemma MissingFieldInPrompt(profile: Dict, performance: Dict, r: string, f: Field)
    requires BuildPrompt(profile, performance) == Success(r)
    requires f != Description && f != Photos && Get(profile, f.Key()).None?
    ensures Occurs(r, Line(Row(Caption(f), Placeholder)))
  {
    PromptParts(profile, performance, r);
    PlaceholderRow(profile, f);
    ProfileLineShown(profile, performance, r, RowOf(f), Row(Caption(f), Placeholder));
  }

  /** The photo row stands in the prompt as, say, "- Fotos: 3 fotos subidas":
      the length of the photo list, or 0 without photos. */
  lemma PhotosInPrompt(profile: Dict, performance: Dict, r: string)
    requires BuildPrompt(profile, performance) == Success(r)
    ensures Get(profile, Photos.Key()).None? ==>
              Occurs(r, Line(Row(Caption(Photos), "0" + PhotosSuffix)))
    ensures Get(profile, Photos.Key()).Some? && Get(profile, Photos.Key()).value.JList? ==>
              Occurs(r, Line(Row(Caption(Photos),
                                 Decimal(|Get(profile, Photos.Key()).value.items|) + PhotosSuffix)))
  {
    PromptParts(profile, performance, r);
    PhotosRow(profile);
    PhotoCountShown(profile);
    assert Decimal(0) == "0";
    ProfileLineShown(profile, performance, r, 7, ProfileRows(profile).value[7]);
  }

  /** A row known to stand at index `k` of the profile block occurs in the prompt. */
  lemma ProfileLineShown(profile: Dict, performance: Dict, r: string, k: nat, row: Row)
    requires BuildPrompt(profile, performance) == Success(r)
    requires ProfileRows(profile).Success? && k < |ProfileRows(profile).value|
    requires ProfileRows(profile).value[k] == row
    ensures Occurs(r, Line(row))
  {
    ProfileRowShown(profile, performance, r, ProfileRows(profile).value, k);
  }

  /** A missing counter stands in the prompt as, say, "- Vistas: 0". */
  lemma MissingCounterInPrompt(profile: Dict, performance: Dict, r: string, k: nat)
    requires BuildPrompt(profile, performance) == Success(r) && k < |MetricOrder|
    requires Get(performance, MetricOrder[k].Key()).None?
    ensures Occurs(r, Line(Row(MetricLabel(MetricOrder[k]), "0")))
  {
    MetricRowShown(profile, performance, r, k);
    CounterAbsent(performance, MetricOrder[k]);
  }

  /** The prompt cannot be built exactly when the description, the address, the
      photo count or one of the counters raises; the profile's exception wins. */
  lemma BuildPromptFailsIff(profile: Dict, performance: Dict)
    ensures BuildPrompt(profile, performance).Failure? <==>
            || DescriptionText(profile).Failure?
            || AddressText(profile).Failure?
            || PhotoCount(profile).Failure?
            || exists k :: 0 <= k < |MetricOrder| && CounterText(performance, MetricOrder[k]).Failure?
    ensures DescriptionText(profile).Failure? ==>
              BuildPrompt(profile, performance) == Failure(DescriptionText(profile).error)
  {
    MetricRowsFailIff(performance, MetricOrder);
  }

  /** The metrics the normaliser produces always render: each counter shows
      its value with separators, or 0 when the normaliser gave up. */
  lemma NormalizedMetricsRender(result: Dict, k: nat)
    requires k < |MetricOrder|
    ensures Normalized(result) == map[] || MetricOrder[k] in Normalized(result)
    ensures CounterText(AsDict(Normalized(result)), MetricOrder[k]) ==
            Success(if Normalized(result) == map[] then "0"
                    else FormatThousands(Normalized(result)[MetricOrder[k]]))
    ensures MetricsBlock(AsDict(Normalized(result))).Success?
  {
    var counters := Normalized(result);
    NormalizedShape(result);
    forall j | 0 <= j < |MetricOrder|
      ensures CounterText(AsDict(counters), MetricOrder[j]).Success?
    {
      AsDictLookup(counters, MetricOrder[j]);
    }
    AsDictLookup(counters, MetricOrder[k]);
    MetricRowsFailIff(AsDict(counters), MetricOrder);
  }
}
