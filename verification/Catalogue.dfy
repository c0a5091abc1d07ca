/** Keyword lookup over the product catalogue. */
module Catalogue {
  import opened Common
  import opened JsStrings
  import opened Sorting

  datatype Product = Product(id: string, name: string, optIn: seq<string>, optOut: seq<string>)

  datatype Service = Service(id: string, name: string, products: seq<Product>)

  datatype KeywordType = Subscribe | Unsubscribe

  datatype Extraction = Extraction(kind: KeywordType, keyword: string)

  // Keyword patterns

  /** The characters a regular expression's `\s` accepts. */
  predicate IsSpace(c: char) {
    var code := c as int;
    9 <= code <= 13 || code == 32 || code == 0xA0 || code == 0x1680 || 0x2000 <= code <= 0x200A
    || code == 0x2028 || code == 0x2029 || code == 0x202F || code == 0x205F || code == 0x3000 || code == 0xFEFF
  }

  predicate IsWordChar(c: char) {
    'a' <= c <= 'z' || 'A' <= c <= 'Z' || '0' <= c <= '9' || c == '_'
  }

  /** What a keyword compiles to: its characters (case-insensitive), each run of spaces as one `\s+`. */
  datatype Token = Literal(c: char) | Spaces

  function Pattern(keyword: string): seq<Token> {
    if keyword == "" then []
    else if !IsSpace(keyword[0]) then [Literal(keyword[0])] + Pattern(keyword[1..])
    else if |keyword| > 1 && IsSpace(keyword[1]) then Pattern(keyword[1..])
    else [Spaces] + Pattern(keyword[1..])
  }

  /** Some way of letting every `\s+` take one or more spaces consumes the whole text. */
  predicate FullMatch(pattern: seq<Token>, text: string)
    decreases |text|, |pattern|
  {
    if pattern == [] then text == ""
    else
      text != "" &&
      match pattern[0]
      case Literal(c) => LowerChar(c) == LowerChar(text[0]) && FullMatch(pattern[1..], text[1..])
      case Spaces => IsSpace(text[0]) && (FullMatch(pattern[1..], text[1..]) || FullMatch(pattern, text[1..]))
  }

  /** `\b` holds between a word character and anything else, the ends of the text included. */
  predicate Boundary(text: string, i: nat)
    requires i <= |text|
  {
    (i > 0 && IsWordChar(text[i - 1])) != (i < |text| && IsWordChar(text[i]))
  }

  /** `createKeywordPattern(keyword).test(message.toLowerCase())` */
  predicate Matches(keyword: string, message: string) {
    var text := ToLower(message);
    exists i, j :: 0 <= i <= j <= |text| && Boundary(text, i) && Boundary(text, j)
                   && FullMatch(Pattern(keyword), text[i..j])
  }

  /** Lower case with every run of spaces squeezed to one. */
  function Collapse(s: string): string {
    if s == "" then ""
    else if !IsSpace(s[0]) then [LowerChar(s[0])] + Collapse(s[1..])
    else if |s| > 1 && IsSpace(s[1]) then Collapse(s[1..])
    else " " + Collapse(s[1..])
  }

  function TokenChar(t: Token): char {
    match t
    case Literal(c) => LowerChar(c)
    case Spaces => ' '
  }

  function Text(pattern: seq<Token>): (s: string)
    ensures |s| == |pattern|
  {
    if pattern == [] then "" else [TokenChar(pattern[0])] + Text(pattern[1..])
  }

  /** Patterns of keywords: literals are not spaces and no two `\s+` are adjacent. */
  predicate Normal(pattern: seq<Token>) {
    && (forall i :: 0 <= i < |pattern| ==> pattern[i].Literal? ==> !IsSpace(pattern[i].c))
    && (forall i :: 0 < i < |pattern| ==> pattern[i].Literal? || pattern[i - 1].Literal?)
  }

  lemma {:induction false} PatternText(keyword: string)
    ensures Text(Pattern(keyword)) == Collapse(keyword)
    ensures Normal(Pattern(keyword))
    ensures keyword != "" ==> Pattern(keyword) != [] && (Pattern(keyword)[0].Spaces? <==> IsSpace(keyword[0]))
  {
    if keyword != "" {
      PatternText(keyword[1..]);
    }
  }

  lemma {:induction false} CollapseHead(s: string)
    ensures s == "" <==> Collapse(s) == ""
    ensures s != "" ==> (Collapse(s)[0] == ' ' <==> IsSpace(s[0]))
  {
    if s != "" {
      CollapseHead(s[1..]);
    }
  }

  lemma NormalTail(pattern: seq<Token>)
    requires Normal(pattern) && pattern != []
    ensures Normal(pattern[1..])
  {}

  lemma {:induction false} MatchIsCollapse(pattern: seq<Token>, text: string)
    requires Normal(pattern)
    ensures FullMatch(pattern, text) <==> Text(pattern) == Collapse(text)
    decreases |text|, |pattern|
  {
    CollapseHead(text);
    if pattern != [] && text != "" {
      NormalTail(pattern);
      var rest := pattern[1..];
      MatchIsCollapse(rest, text[1..]);
      CollapseHead(text[1..]);
      match pattern[0]
      case Literal(c) =>
      case Spaces =>
        MatchIsCollapse(pattern, text[1..]);
        assert rest != [] ==> pattern[1].Literal?;
        assert Text(pattern)[0] == ' ' && Text(pattern)[1..] == Text(rest);
        assert rest != [] ==> Text(rest)[0] != ' ';
    }
  }

  /** A keyword matches a stretch of the message exactly when the two agree up to case and spacing. */
  lemma KeywordMatchesUpToCaseAndSpacing(keyword: string, text: string)
    ensures FullMatch(Pattern(keyword), text) <==> Collapse(keyword) == Collapse(text)
  {
    PatternText(keyword);
    MatchIsCollapse(Pattern(keyword), text);
  }

  // What matching means

  /** ECMAScript's white space and line terminators. */
  const WHITE_SPACE :=
    "\t\n\U{0B}\U{0C}\r \U{A0}\U{1680}\U{2000}\U{2001}\U{2002}\U{2003}\U{2004}\U{2005}\U{2006}\U{2007}\U{2008}"
    + "\U{2009}\U{200A}\U{2028}\U{2029}\U{202F}\U{205F}\U{3000}\U{FEFF}"

  const WORD_CHARACTERS := "ABCDEFGHIJKLMNOPQRSTUVWXYZ" + "abcdefghijklmnopqrstuvwxyz" + "0123456789_"

  /** Every run of white space as one space. */
  function Squeezed(s: string): string {
    if s == "" then ""
    else if s[0] !in WHITE_SPACE then [s[0]] + Squeezed(s[1..])
    else if |s| > 1 && s[1] in WHITE_SPACE then Squeezed(s[1..])
    else " " + Squeezed(s[1..])
  }

  /** The same text, but for the case of letters and the amount of white space between words. */
  ghost predicate SameText(a: string, b: string) {
    && |Squeezed(a)| == |Squeezed(b)|
    && forall i :: 0 <= i < |Squeezed(a)| ==> SameUpToCase(Squeezed(a)[i], Squeezed(b)[i])
  }

  predicate EndsInWord(s: string) {
    s != "" && s[|s| - 1] in WORD_CHARACTERS
  }

  predicate StartsInWord(s: string) {
    s != "" && s[0] in WORD_CHARACTERS
  }

  /** The keyword stands in the message as `middle`, up to case and spacing, and words begin or end on both sides. */
  ghost predicate StandsAs(keyword: string, message: string, front: string, middle: string, back: string) {
    && message == front + middle + back && SameText(keyword, middle)
    && EndsInWord(front) != StartsInWord(middle + back) && EndsInWord(front + middle) != StartsInWord(back)
  }

  ghost predicate StandsIn(keyword: string, message: string) {
    exists front, middle, back :: StandsAs(keyword, message, front, middle, back)
  }

  lemma SpacesAre(c: char)
    ensures IsSpace(c) <==> c in WHITE_SPACE
  {}

  lemma WordCharactersAre(c: char)
    ensures IsWordChar(c) <==> c in WORD_CHARACTERS
  {}

  lemma {:induction false} CollapseSqueezes(s: string)
    ensures |Collapse(s)| == |Squeezed(s)|
    ensures forall i :: 0 <= i < |Collapse(s)| ==> Collapse(s)[i] == LowerChar(Squeezed(s)[i])
  {
    if s != "" {
      hide IsSpace;
      SpacesAre(s[0]);
      if |s| > 1 {
        SpacesAre(s[1]);
      }
      CollapseSqueezes(s[1..]);
    }
  }

  lemma SameTextIsCollapse(a: string, b: string)
    ensures Collapse(a) == Collapse(b) <==> SameText(a, b)
  {
    hide Collapse, Squeezed;
    CollapseSqueezes(a);
    CollapseSqueezes(b);
    if SameText(a, b) {
      assert forall i :: 0 <= i < |Collapse(a)| ==> Collapse(a)[i] == Collapse(b)[i];
    } else if |Collapse(a)| == |Collapse(b)| {
      var i :| 0 <= i < |Squeezed(a)| && !SameUpToCase(Squeezed(a)[i], Squeezed(b)[i]);
      assert Collapse(a)[i] != Collapse(b)[i];
    }
  }

  lemma {:induction false} CollapseLowers(s: string)
    ensures Collapse(ToLower(s)) == Collapse(s)
  {
    if s != "" {
      hide IsSpace, ToLower;
      var lower := ToLower(s);
      assert lower[1..] == ToLower(s[1..]);
      LowerIsSpace(s[0]);
      if |s| > 1 {
        LowerIsSpace(s[1]);
      }
      CollapseLowers(s[1..]);
    }
  }

  lemma LowerIsSpace(c: char)
    ensures IsSpace(LowerChar(c)) <==> IsSpace(c)
    ensures IsWordChar(LowerChar(c)) <==> IsWordChar(c)
    ensures LowerChar(LowerChar(c)) == LowerChar(c)
  {}

  lemma BoundaryIs(message: string, front: string, back: string)
    requires message == front + back
    ensures Boundary(ToLower(message), |front|) <==> EndsInWord(front) != StartsInWord(back)
  {
    hide IsWordChar, ToLower;
    if front != "" {
      LowerIsSpace(front[|front| - 1]);
      WordCharactersAre(front[|front| - 1]);
    }
    if back != "" {
      LowerIsSpace(back[0]);
      WordCharactersAre(back[0]);
    }
  }

  lemma PieceMatches(keyword: string, message: string, front: string, middle: string, back: string)
    requires message == front + middle + back
    ensures FullMatch(Pattern(keyword), ToLower(message)[|front|..|front| + |middle|]) <==> SameText(keyword, middle)
    ensures Boundary(ToLower(message), |front|) <==> EndsInWord(front) != StartsInWord(middle + back)
    ensures Boundary(ToLower(message), |front| + |middle|) <==> EndsInWord(front + middle) != StartsInWord(back)
  {
    hide Boundary, FullMatch, SameText, EndsInWord, StartsInWord, ToLower, Collapse;
    var piece := ToLower(message)[|front|..|front| + |middle|];
    assert piece == ToLower(middle);
    KeywordMatchesUpToCaseAndSpacing(keyword, piece);
    CollapseLowers(middle);
    SameTextIsCollapse(keyword, middle);
    assert message == front + (middle + back);
    BoundaryIs(message, front, middle + back);
    BoundaryIs(message, front + middle, back);
  }

  /** A keyword matches a message exactly when it stands in it. */
  lemma MatchesIffStandsIn(keyword: string, message: string)
    ensures Matches(keyword, message) <==> StandsIn(keyword, message)
  {
    hide Boundary, FullMatch, SameText, EndsInWord, StartsInWord, ToLower;
    if Matches(keyword, message) {
      var text := ToLower(message);
      var i, j :| 0 <= i <= j <= |text| && Boundary(text, i) && Boundary(text, j)
                  && FullMatch(Pattern(keyword), text[i..j]);
      var front, middle, back := message[..i], message[i..j], message[j..];
      assert message == front + middle + back;
      PieceMatches(keyword, message, front, middle, back);
      assert StandsAs(keyword, message, front, middle, back);
    }
    if StandsIn(keyword, message) {
      var front, middle, back :| StandsAs(keyword, message, front, middle, back);
      PieceMatches(keyword, message, front, middle, back);
    }
  }

  lemma {:induction false} SqueezedEnds(s: string)
    ensures Squeezed(s) == "" <==> s == ""
    ensures s != "" ==> (Squeezed(s)[0] == if s[0] in WHITE_SPACE then ' ' else s[0])
    ensures s != "" ==>
      Squeezed(s)[|Squeezed(s)| - 1] == if s[|s| - 1] in WHITE_SPACE then ' ' else s[|s| - 1]
  {
    if s != "" {
      SqueezedEnds(s[1..]);
    }
  }

  lemma WordsUpToCase(a: char, b: char)
    requires SameUpToCase(if a in WHITE_SPACE then ' ' else a, if b in WHITE_SPACE then ' ' else b)
    ensures a in WORD_CHARACTERS <==> b in WORD_CHARACTERS
  {
    SpacesAre(a);
    SpacesAre(b);
    WordCharactersAre(a);
    WordCharactersAre(b);
  }

  lemma SameTextEnds(a: string, b: string)
    requires SameText(a, b)
    ensures StartsInWord(a) <==> StartsInWord(b)
    ensures EndsInWord(a) <==> EndsInWord(b)
  {
    hide Squeezed;
    SqueezedEnds(a);
    SqueezedEnds(b);
    if a != "" {
      WordsUpToCase(a[0], b[0]);
      WordsUpToCase(a[|a| - 1], b[|b| - 1]);
    }
  }

  /** So a keyword that begins and ends with a letter, digit or underscore is found where it stands as whole words, and
      never inside a longer word. */
  lemma WholeWordsMatch(keyword: string, message: string)
    requires StartsInWord(keyword) && EndsInWord(keyword)
    ensures Matches(keyword, message) <==>
            exists front, middle, back :: message == front + middle + back && SameText(keyword, middle)
                                          && !EndsInWord(front) && !StartsInWord(back)
  {
    MatchesIffStandsIn(keyword, message);
    hide SameText;
    forall front, middle, back | message == front + middle + back && SameText(keyword, middle)
      ensures StandsAs(keyword, message, front, middle, back) <==> !EndsInWord(front) && !StartsInWord(back)
    {
      SameTextEnds(keyword, middle);
    }
  }

  // Lookup

  function AllProducts(services: seq<Service>): (r: seq<Product>)
    ensures forall p :: p in r ==> exists s :: s in services && p in s.products
    ensures forall s, p :: s in services && p in s.products ==> p in r
  {
    if services == [] then [] else services[0].products + AllProducts(services[1..])
  }

  function Keywords(p: Product): seq<string> {
    p.optIn + p.optOut
  }

  function KeywordsOf(products: seq<Product>): (r: seq<string>)
    ensures forall k :: k in r ==> exists p :: p in products && k in Keywords(p)
    ensures forall p, k :: p in products && k in Keywords(p) ==> k in r
  {
    if products == [] then [] else Keywords(products[0]) + KeywordsOf(products[1..])
  }

  function AllKeywords(services: seq<Service>): seq<string> {
    KeywordsOf(AllProducts(services))
  }

  function ProductById(services: seq<Service>, id: string): Option<Product> {
    Find(AllProducts(services), (p: Product) => p.id == id)
  }

  predicate Offers(s: Service, id: string) {
    exists p :: p in s.products && p.id == id
  }

  function ServiceByProductId(services: seq<Service>, id: string): Option<Service> {
    Find(services, (s: Service) => Offers(s, id))
  }

  function ProductByKeyword(services: seq<Service>, keyword: string): Option<Product> {
    Find(AllProducts(services), (p: Product) => keyword in Keywords(p))
  }

  /** `getProductAndServiceByKeyword`. Without a product its `product.id` is read off `undefined`: `None` is
      that TypeError (or, for an empty catalogue, a pair of `undefined`s). */
  function ProductAndService(services: seq<Service>, keyword: string): Option<(Service, Product)> {
    match ProductByKeyword(services, keyword)
    case None => None
    case Some(p) =>
      match ServiceByProductId(services, p.id)
      case None => None
      case Some(s) => Some((s, p))
  }

  /** `extractKeywords`: the first match in order of decreasing length. */
  function ExtractKeywords(services: seq<Service>, message: string): Extraction {
    var sorted := SortBy(AllKeywords(services), (k: string) => -|k|);
    match Find(sorted, (k: string) => Matches(k, message))
    case None => Extraction(Unsubscribe, "")
    case Some(k) =>
      if k == "" then Extraction(Unsubscribe, "")
      else
        var owner := ProductByKeyword(services, k);
        Extraction(if owner.Some? && k in owner.value.optIn then Subscribe else Unsubscribe, k)
  }

  predicate Has(p: Product, k: string) {
    k in p.optIn || k in p.optOut
  }

  ghost predicate UniqueIds(services: seq<Service>) {
    var all := AllProducts(services);
    forall p, q :: p in all && q in all && p.id == q.id ==> p == q
  }

  /** No keyword belongs to two products, or to both lists of one. */
  ghost predicate DistinctKeywords(services: seq<Service>) {
    var all := AllProducts(services);
    && (forall p, q, k :: p in all && q in all && Has(p, k) && Has(q, k) ==> p == q)
    && (forall p, k :: p in all && k in p.optIn ==> k !in p.optOut)
  }

  lemma {:induction false} FindIsEarliest<T>(s: seq<T>, p: T -> bool, key: T -> int)
    requires SortedBy(s, key)
    ensures Find(s, p).Some? ==> forall x :: x in s && p(x) ==> key(Find(s, p).value) <= key(x)
  {
    if s != [] && !p(s[0]) {
      FindIsEarliest(s[1..], p, key);
    }
  }

  lemma LongestOfAll(services: seq<Service>, message: string)
    ensures
      var found := ExtractKeywords(services, message).keyword;
      && (found != "" ==> found in AllKeywords(services) && Matches(found, message))
      && (forall k :: k in AllKeywords(services) && Matches(k, message) ==> |k| <= |found|)
  {
    hide Matches, SortBy;
    var all := AllKeywords(services);
    var key := (k: string) => -|k|;
    var sorted := SortBy(all, key);
    SortSorted(all, key);
    FindIsEarliest(sorted, (k: string) => Matches(k, message), key);
    assert forall k :: k in sorted <==> k in multiset(sorted);
    assert forall k :: k in all <==> k in multiset(all);
  }

  /** The keyword opts in to or out of some product of the catalogue. */
  ghost predicate IsOffered(services: seq<Service>, k: string) {
    exists s, p :: s in services && p in s.products && Has(p, k)
  }

  lemma OfferedKeywords(services: seq<Service>, k: string)
    ensures IsOffered(services, k) <==> k in AllKeywords(services)
  {
    if k in AllKeywords(services) {
      var p :| p in AllProducts(services) && k in Keywords(p);
      var s :| s in services && p in s.products;
      assert Has(p, k);
    }
    if s, p :| s in services && p in s.products && Has(p, k) {
      assert p in AllProducts(services) && k in Keywords(p);
    }
  }

  /** The extracted keyword belongs to the catalogue and stands in the message; no keyword of the catalogue that does is
      longer; and it is empty only if no other one stands there. */
  lemma LongestMatch(services: seq<Service>, message: string)
    ensures
      var found := ExtractKeywords(services, message).keyword;
      && (found != "" ==> IsOffered(services, found) && StandsIn(found, message))
      && (forall k :: IsOffered(services, k) && StandsIn(k, message) ==> |k| <= |found|)
  {
    hide Matches, StandsIn, ExtractKeywords, AllKeywords, IsOffered;
    LongestOfAll(services, message);
    forall k
      ensures IsOffered(services, k) <==> k in AllKeywords(services)
      ensures Matches(k, message) <==> StandsIn(k, message)
    {
      OfferedKeywords(services, k);
      MatchesIffStandsIn(k, message);
    }
  }

  lemma {:induction false} FindInFilter<T>(s: seq<T>, p: T -> bool, q: T -> bool)
    requires Find(s, p).Some? && q(Find(s, p).value)
    ensures Find(Filter(s, q), p) == Find(s, p)
  {
    if !p(s[0]) {
      FindInFilter(s[1..], p, q);
      var rest := Filter(s[1..], q);
      assert ([s[0]] + rest)[1..] == rest;
    }
  }

  /** Among the elements with the same key, sorting changes nothing for `find`. */
  lemma FindAmongEquals<T>(s: seq<T>, p: T -> bool, key: T -> int, v: int, equal: T -> bool)
    requires forall x :: equal(x) <==> key(x) == v
    requires Find(SortBy(s, key), p).Some? && key(Find(SortBy(s, key), p).value) == v
    ensures Find(Filter(s, equal), p) == Find(SortBy(s, key), p)
  {
    hide SortBy, Filter;
    SortStable(s, key, v);
    var same := y => key(y) == v;
    FilterAlike(SortBy(s, key), same, equal);
    FilterAlike(s, same, equal);
    FindInFilter(SortBy(s, key), p, equal);
  }

  /** Among the longest ones that stand in the message it is the first of the catalogue. */
  lemma FirstOfTheLongest(services: seq<Service>, message: string)
    ensures
      var found := ExtractKeywords(services, message).keyword;
      var ofThatLength := Filter(AllKeywords(services), (k: string) => |k| == |found|);
      found != "" ==> Find(ofThatLength, (k: string) => Matches(k, message)) == Some(found)
  {
    hide Matches, SortBy, AllKeywords, Filter, Find;
    var found := ExtractKeywords(services, message).keyword;
    if found != "" {
      FindAmongEquals(AllKeywords(services), (k: string) => Matches(k, message), (k: string) => -|k|, -|found|,
                      (k: string) => |k| == |found|);
    }
  }

  lemma {:induction false} FilterAlike<T>(s: seq<T>, p: T -> bool, q: T -> bool)
    requires forall x :: p(x) <==> q(x)
    ensures Filter(s, p) == Filter(s, q)
  {
    if s != [] {
      FilterAlike(s[1..], p, q);
    }
  }

  /** Looking up a keyword of the catalogue finds a product that has it and a service that offers that product. */
  lemma LookupFinds(services: seq<Service>, k: string)
    requires UniqueIds(services) && IsOffered(services, k)
    ensures
      var r := ProductAndService(services, k);
      && r.Some? && ProductByKeyword(services, k) == Some(r.value.1)
      && r.value.0 in services && r.value.1 in r.value.0.products && Has(r.value.1, k)
      && r.value.1 in AllProducts(services)
  {
    hide IsOffered;
    OfferedKeywords(services, k);
  }

  /** On a catalogue with unique ids and distinct keywords a matched message resolves to the one product that
      owns the keyword, to a service that offers it, and to the list the keyword stands in. */
  lemma ResolutionIsConsistent(services: seq<Service>, message: string)
    requires UniqueIds(services) && DistinctKeywords(services)
    ensures ExtractKeywords(services, message).keyword != "" ==>
      var found := ExtractKeywords(services, message);
      var resolved := ProductAndService(services, found.keyword);
      && resolved.Some?
      && resolved.value.0 in services && resolved.value.1 in resolved.value.0.products
      && (forall s, p :: s in services && p in s.products && Has(p, found.keyword) ==> p == resolved.value.1)
      && (found.kind == Subscribe <==> found.keyword in resolved.value.1.optIn)
      && (found.kind == Unsubscribe <==> found.keyword in resolved.value.1.optOut)
      && ProductById(services, resolved.value.1.id) == Some(resolved.value.1)
  {
    hide Matches, SortBy, AllProducts, KeywordsOf, ProductAndService, StandsIn, IsOffered;
    LongestMatch(services, message);
    if ExtractKeywords(services, message).keyword != "" {
      LookupFinds(services, ExtractKeywords(services, message).keyword);
    }
  }

  /** In a catalogue with products and without empty keywords, looking the message up throws exactly when
      nothing matches. */
  lemma LookupThrowsIffNoMatch(services: seq<Service>, message: string)
    requires AllProducts(services) != [] && !IsOffered(services, "")
    ensures ProductAndService(services, ExtractKeywords(services, message).keyword).None?
       <==> forall k :: IsOffered(services, k) ==> !StandsIn(k, message)
  {
    hide Matches, SortBy, StandsIn, IsOffered;
    LongestMatch(services, message);
    OfferedKeywords(services, "");
    var k := ExtractKeywords(services, message).keyword;
    OfferedKeywords(services, k);
    if k != "" {
      var p := ProductByKeyword(services, k).value;
      var home :| home in services && p in home.products;
      assert Offers(home, p.id);
    }
  }
}
