/**
 * The falla catalogue as the program derives it from its JSON file: the
 * section number becomes a category, a text of facts is generated from the
 * founding year, the artist, the distinction and the type, and two filters
 * pick the adult and the children's fallas. The JSON records are an input.
 */
module FallasData {
  import opened Wrappers
  import opened Text
  import opened Seqs
  import opened Types

  /** A record of the JSON file, with the fields the conversion reads. */
  datatype RawFalla = RawFalla(
    id: int,
    name: string,
    lat: real,
    lng: real,
    seccion: string,
    theme: string,
    artist: Option<string>,
    fundacion: Option<int>,
    distintivo: Option<string>,
    fallaType: Option<string>)

  /** getCategoryFromSeccion: decided by the first character of the section. */
  function GetCategoryFromSeccion(seccion: string): (c: Category)
    ensures c == Especial <==> |seccion| > 0 && seccion[0] == '1'
    ensures c == Primera <==> |seccion| > 0 && (seccion[0] == '2' || seccion[0] == '3')
    ensures c == Segunda <==> |seccion| > 0 && (seccion[0] == '4' || seccion[0] == '5')
    ensures c == Tercera <==> |seccion| == 0 || !('1' <= seccion[0] <= '5')
  {
    if StartsWith(seccion, "1") then Especial
    else if StartsWith(seccion, "2") || StartsWith(seccion, "3") then Primera
    else if StartsWith(seccion, "4") || StartsWith(seccion, "5") then Segunda
    else Tercera
  }

  const CurrentYear := 2026

  /** A string field is truthy when present and not empty. */
  predicate TruthyText(s: Option<string>) {
    s.Some? && s.value != ""
  }

  /** A number field is truthy when present and not zero. */
  predicate TruthyNumber(n: Option<int>) {
    n.Some? && n.value != 0
  }

  predicate ShowsFounding(raw: RawFalla) {
    TruthyNumber(raw.fundacion)
  }

  predicate ShowsArtist(raw: RawFalla) {
    TruthyText(raw.artist) && raw.artist.value != "Sin artista"
  }

  predicate ShowsDistintivo(raw: RawFalla) {
    TruthyText(raw.distintivo)
  }

  predicate IsInfantil(raw: RawFalla) {
    raw.fallaType == Some("infantil")
  }

  const FoundingPrefix := "Fundada en "
  const ArtistPrefix := "Artista: "
  const DistintivoPrefix := "Distintivo: "
  const InfantilFact := "Falla Infantil"

  function FoundingFact(year: int): string {
    FoundingPrefix + FoundingDetail(year)
  }

  /** The year and the age it gives in the current year. */
  function FoundingDetail(year: int): string {
    IntToString(year) + " (" + IntToString(CurrentYear - year) + " a\U{F1}os)"
  }

  function When(cond: bool, fact: string): seq<string> {
    if cond then [fact] else []
  }

  /** The facts of a record: founding, artist, distinction, children's falla, each when it applies. */
  function Facts(raw: RawFalla): (r: seq<string>)
    ensures |r| <= 4
    ensures |r| == 0 <==> !ShowsFounding(raw) && !ShowsArtist(raw) && !ShowsDistintivo(raw) && !IsInfantil(raw)
  {
    When(ShowsFounding(raw), FoundingFact(raw.fundacion.GetOr(0)))
    + When(ShowsArtist(raw), ArtistPrefix + raw.artist.GetOr(""))
    + When(ShowsDistintivo(raw), DistintivoPrefix + raw.distintivo.GetOr(""))
    + When(IsInfantil(raw), InfantilFact)
  }

  function Count(b: bool): nat {
    if b then 1 else 0
  }

  function FoundingPart(raw: RawFalla): seq<string> {
    When(ShowsFounding(raw), FoundingFact(raw.fundacion.GetOr(0)))
  }

  function ArtistPart(raw: RawFalla): seq<string> {
    When(ShowsArtist(raw), ArtistPrefix + raw.artist.GetOr(""))
  }

  function DistintivoPart(raw: RawFalla): seq<string> {
    When(ShowsDistintivo(raw), DistintivoPrefix + raw.distintivo.GetOr(""))
  }

  function InfantilPart(raw: RawFalla): seq<string> {
    When(IsInfantil(raw), InfantilFact)
  }

  lemma {:induction false} FactsParts(raw: RawFalla)
    ensures Facts(raw) == FoundingPart(raw) + ArtistPart(raw) + DistintivoPart(raw) + InfantilPart(raw)
  {
  }

  /** One fact for each condition that holds. */
  lemma {:induction false} FactsCount(raw: RawFalla)
    ensures |Facts(raw)| == Count(ShowsFounding(raw)) + Count(ShowsArtist(raw)) + Count(ShowsDistintivo(raw)) + Count(IsInfantil(raw))
  {
    FactsParts(raw);
  }

  /** The second letter tells the four kinds of fact apart: 'u', 'r', 'i' and 'a'. */
  function KindLetter(fact: string): char {
    if |fact| > 1 then fact[1] else ' '
  }

  lemma {:induction false} KindLetters(raw: RawFalla)
    ensures forall k :: 0 <= k < |FoundingPart(raw)| ==> KindLetter(FoundingPart(raw)[k]) == 'u'
    ensures forall k :: 0 <= k < |ArtistPart(raw)| ==> KindLetter(ArtistPart(raw)[k]) == 'r'
    ensures forall k :: 0 <= k < |DistintivoPart(raw)| ==> KindLetter(DistintivoPart(raw)[k]) == 'i'
    ensures forall k :: 0 <= k < |InfantilPart(raw)| ==> KindLetter(InfantilPart(raw)[k]) == 'a'
  {
  }

  /** A fact of a given kind is present exactly when its part is not empty. */
  lemma {:induction false} KindPresent(a: seq<string>, b: seq<string>, c: seq<string>, d: seq<string>, ch: char, part: nat)
    requires part < 4
    requires forall k :: 0 <= k < |a| ==> KindLetter(a[k]) == 'u'
    requires forall k :: 0 <= k < |b| ==> KindLetter(b[k]) == 'r'
    requires forall k :: 0 <= k < |c| ==> KindLetter(c[k]) == 'i'
    requires forall k :: 0 <= k < |d| ==> KindLetter(d[k]) == 'a'
    requires ch == ['u', 'r', 'i', 'a'][part]
    ensures (exists k :: 0 <= k < |a + b + c + d| && KindLetter((a + b + c + d)[k]) == ch)
            <==> |[a, b, c, d][part]| > 0
  {
    var fs := a + b + c + d;
    var p := [a, b, c, d][part];
    if |p| > 0 {
      var off := [0, |a|, |a| + |b|, |a| + |b| + |c|][part];
      assert fs[off] == p[0];
    }
    forall k | 0 <= k < |fs| && KindLetter(fs[k]) == ch
      ensures |p| > 0
    {
      if k < |a| {
        assert fs[k] == a[k];
      } else if k < |a| + |b| {
        assert fs[k] == b[k - |a|];
      } else if k < |a| + |b| + |c| {
        assert fs[k] == c[k - |a| - |b|];
      } else {
        assert fs[k] == d[k - |a| - |b| - |c|];
      }
    }
  }

  /**
   * The founding fact, the artist fact, the distinction and the children's
   * fact each appear exactly when their condition holds, recognised by
   * their wording, and each shows the record's own value.
   */
  lemma {:induction false} FactsPresence(raw: RawFalla)
    ensures ShowsFounding(raw) <==> exists f :: f in Facts(raw) && FoundingPrefix <= f
    ensures ShowsArtist(raw) <==> exists f :: f in Facts(raw) && ArtistPrefix <= f
    ensures ShowsDistintivo(raw) <==> exists f :: f in Facts(raw) && DistintivoPrefix <= f
    ensures IsInfantil(raw) <==> InfantilFact in Facts(raw)
    ensures ShowsFounding(raw) ==> FoundingFact(raw.fundacion.value) in Facts(raw)
    ensures ShowsArtist(raw) ==> ArtistPrefix + raw.artist.value in Facts(raw)
    ensures ShowsDistintivo(raw) ==> DistintivoPrefix + raw.distintivo.value in Facts(raw)
  {
    FoundingPresence(raw);
    ArtistPresence(raw);
    DistintivoPresence(raw);
    InfantilPresence(raw);
  }

  lemma {:induction false} FoundingPresence(raw: RawFalla)
    ensures ShowsFounding(raw) <==> exists f :: f in Facts(raw) && FoundingPrefix <= f
    ensures ShowsFounding(raw) ==> FoundingFact(raw.fundacion.value) in Facts(raw)
  {
    FactsParts(raw);
    FactsKind(raw, 0);
    assert FoundingPrefix[1] == 'u';
    PrefixPresence(Facts(raw), FoundingPrefix, ShowsFounding(raw), FoundingDetail(raw.fundacion.GetOr(0)));
  }

  lemma {:induction false} ArtistPresence(raw: RawFalla)
    ensures ShowsArtist(raw) <==> exists f :: f in Facts(raw) && ArtistPrefix <= f
    ensures ShowsArtist(raw) ==> ArtistPrefix + raw.artist.value in Facts(raw)
  {
    FactsParts(raw);
    FactsKind(raw, 1);
    assert ArtistPrefix[1] == 'r';
    PrefixPresence(Facts(raw), ArtistPrefix, ShowsArtist(raw), raw.artist.GetOr(""));
  }

  lemma {:induction false} DistintivoPresence(raw: RawFalla)
    ensures ShowsDistintivo(raw) <==> exists f :: f in Facts(raw) && DistintivoPrefix <= f
    ensures ShowsDistintivo(raw) ==> DistintivoPrefix + raw.distintivo.value in Facts(raw)
  {
    FactsParts(raw);
    FactsKind(raw, 2);
    assert DistintivoPrefix[1] == 'i';
    PrefixPresence(Facts(raw), DistintivoPrefix, ShowsDistintivo(raw), raw.distintivo.GetOr(""));
  }

  lemma {:induction false} InfantilPresence(raw: RawFalla)
    ensures IsInfantil(raw) <==> InfantilFact in Facts(raw)
  {
    FactsParts(raw);
    FactsKind(raw, 3);
    var fs := Facts(raw);
    if InfantilFact in fs {
      var k :| 0 <= k < |fs| && fs[k] == InfantilFact;
      assert KindLetter(fs[k]) == 'a';
    }
  }

  /** A fact kind told by its second letter: present with prefix `p` exactly when shown, and then `p + v` is there. */
  lemma {:induction false} PrefixPresence(fs: seq<string>, p: string, shown: bool, v: string)
    requires |p| > 1
    requires (exists k :: 0 <= k < |fs| && KindLetter(fs[k]) == p[1]) <==> shown
    requires shown ==> p + v in fs
    ensures shown <==> exists f :: f in fs && p <= f
    ensures shown ==> p + v in fs
  {
    PrefixLetter(fs, p);
    if shown {
      assert (p + v)[..|p|] == p;
    }
  }

  /** A fact that starts with a prefix has the prefix's second letter as its kind letter. */
  lemma {:induction false} PrefixLetter(fs: seq<string>, p: string)
    requires |p| > 1
    ensures (exists f :: f in fs && p <= f) ==> exists k :: 0 <= k < |fs| && KindLetter(fs[k]) == p[1]
  {
    if exists f :: f in fs && p <= f {
      var f :| f in fs && p <= f;
      var k :| 0 <= k < |fs| && fs[k] == f;
      assert f[1] == p[1];
    }
  }

  /** One kind of fact at a time: present exactly when its condition holds. */
  lemma {:induction false} FactsKind(raw: RawFalla, part: nat)
    requires part < 4
    ensures (exists k :: 0 <= k < |Facts(raw)| && KindLetter(Facts(raw)[k]) == ['u', 'r', 'i', 'a'][part])
            <==> [ShowsFounding(raw), ShowsArtist(raw), ShowsDistintivo(raw), IsInfantil(raw)][part]
  {
    FactsParts(raw);
    KindLetters(raw);
    var a, b, c, d := FoundingPart(raw), ArtistPart(raw), DistintivoPart(raw), InfantilPart(raw);
    var conds := [ShowsFounding(raw), ShowsArtist(raw), ShowsDistintivo(raw), IsInfantil(raw)];
    KindPresent(a, b, c, d, ['u', 'r', 'i', 'a'][part], part);
    assert |[a, b, c, d][part]| > 0 <==> conds[part] by {
      if part == 0 { assert [a, b, c, d][part] == a; }
      else if part == 1 { assert [a, b, c, d][part] == b; }
      else if part == 2 { assert [a, b, c, d][part] == c; }
      else { assert [a, b, c, d][part] == d; }
    }
  }

  /** The founding fact, when there is one, comes first; the children's fact, when there is one, last. */
  lemma {:induction false} FactsOrder(raw: RawFalla)
    ensures ShowsFounding(raw) ==> Facts(raw)[0] == FoundingFact(raw.fundacion.value)
    ensures IsInfantil(raw) ==> Facts(raw)[|Facts(raw)| - 1] == InfantilFact
  {
    FactsParts(raw);
  }

  /** `facts.map(f => `• ${f}`)` */
  function Bullets(facts: seq<string>): (r: seq<string>)
    ensures |r| == |facts|
    ensures forall k :: 0 <= k < |r| ==> r[k] == "\U{2022} " + facts[k]
  {
    seq(|facts|, k requires 0 <= k < |facts| => "\U{2022} " + facts[k])
  }

  /** The facts text: the bulleted facts joined by "<br>". */
  function FactsText(facts: seq<string>): (r: string)
    ensures |facts| == 0 ==> r == ""
  {
    Join(Bullets(facts), "<br>")
  }

  /** The text is empty exactly when there is no fact; otherwise it starts with a bullet. */
  lemma {:induction false} FactsTextEmpty(facts: seq<string>)
    ensures FactsText(facts) == "" <==> |facts| == 0
    ensures |facts| > 0 ==> StartsWith(FactsText(facts), "\U{2022} " + facts[0])
  {
    var bs := Bullets(facts);
    if |facts| > 1 {
      assert FactsText(facts) == bs[0] + ("<br>" + Join(bs[1..], "<br>"));
    }
  }

  /** generateFacts: pushes each applicable fact in turn, then bullets and joins them. */
  method GenerateFacts(raw: RawFalla) returns (text: string)
    ensures text == FactsText(Facts(raw))
  {
    var facts: seq<string> := [];
    if TruthyNumber(raw.fundacion) {
      facts := facts + [FoundingFact(raw.fundacion.value)];
    }
    assert facts == FoundingPart(raw);
    if TruthyText(raw.artist) && raw.artist.value != "Sin artista" {
      facts := facts + [ArtistPrefix + raw.artist.value];
    }
    assert facts == FoundingPart(raw) + ArtistPart(raw);
    if TruthyText(raw.distintivo) {
      facts := facts + [DistintivoPrefix + raw.distintivo.value];
    }
    assert facts == FoundingPart(raw) + ArtistPart(raw) + DistintivoPart(raw);
    if raw.fallaType == Some("infantil") {
      facts := facts + [InfantilFact];
    }
    assert facts == FoundingPart(raw) + ArtistPart(raw) + DistintivoPart(raw) + InfantilPart(raw);
    FactsParts(raw);
    text := Join(Bullets(facts), "<br>");
  }

  /** One element of fallasData: the listed fields copied, the category and facts derived. */
  function ToFalla(raw: RawFalla): (f: Falla)
    ensures f.id == raw.id && f.fallaType == raw.fallaType
    ensures f.category == GetCategoryFromSeccion(raw.seccion)
    ensures f.facts == FactsText(Facts(raw))
    ensures f.address == None && !f.isExperimental && !f.isMunicipal
  {
    Falla(raw.id, raw.name, raw.lat, raw.lng, None, GetCategoryFromSeccion(raw.seccion), raw.theme,
          FactsText(Facts(raw)), raw.artist, raw.fundacion, raw.distintivo, raw.fallaType, false, false)
  }

  /** fallasData */
  function FallasFromJson(raws: seq<RawFalla>): (r: seq<Falla>)
    ensures |r| == |raws|
    ensures forall k :: 0 <= k < |r| ==> r[k] == ToFalla(raws[k])
  {
    seq(|raws|, k requires 0 <= k < |raws| => ToFalla(raws[k]))
  }

  predicate IsAdulta(f: Falla) {
    f.fallaType == Some("adulta")
  }

  predicate IsInfantilFalla(f: Falla) {
    f.fallaType == Some("infantil")
  }

  /** fallasAdultas: exactly the fallas typed 'adulta', in order. */
  function FallasAdultas(data: seq<Falla>): (r: seq<Falla>)
    ensures IsSubsequence(r, data)
    ensures forall k :: 0 <= k < |r| ==> IsAdulta(r[k])
    ensures forall k :: 0 <= k < |data| && IsAdulta(data[k]) ==> data[k] in r
  {
    Filter(data, IsAdulta)
  }

  /** fallasInfantiles: exactly the fallas typed 'infantil', in order. */
  function FallasInfantiles(data: seq<Falla>): (r: seq<Falla>)
    ensures IsSubsequence(r, data)
    ensures forall k :: 0 <= k < |r| ==> IsInfantilFalla(r[k])
    ensures forall k :: 0 <= k < |data| && IsInfantilFalla(data[k]) ==> data[k] in r
  {
    Filter(data, IsInfantilFalla)
  }

  /** The two lists never share a falla, and together they hold at most every falla once. */
  lemma {:induction false} AdultasInfantilesSplit(data: seq<Falla>)
    ensures |FallasAdultas(data)| + |FallasInfantiles(data)| <= |data|
    ensures (forall k :: 0 <= k < |data| ==> IsAdulta(data[k]) || IsInfantilFalla(data[k]))
            ==> |FallasAdultas(data)| + |FallasInfantiles(data)| == |data|
    decreases |data|
  {
    if |data| > 0 {
      AdultasInfantilesSplit(data[1..]);
      assert forall k :: 0 <= k < |data[1..]| ==> data[1..][k] == data[k + 1];
    }
  }
}
