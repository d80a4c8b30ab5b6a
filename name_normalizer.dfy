/** `normalizar_nombre`: the key under which two spellings of a company name count as
    the same name. Canonical decomposition (Unicode Normalization Form D, section 1.2 of
    Unicode Standard Annex #15), removal of combining marks (general category Mn),
    lower-casing, removal of every character outside `[a-z0-9\s]`, collapse of
    whitespace runs to one space, and trimming. */
module NameNormalizer {
  import opened Wrappers
  import opened Seqs
  import opened PyStrings

  /** How a character decomposes canonically: not at all, into another single letter,
      or into a base letter and one combining mark. */
  datatype Decomp = Same | Letter(base: char) | Accented(base: char, mark: char)

  /** The canonical decompositions known here: the precomposed letters of the Latin-1
      Supplement and Latin Extended-A blocks and the Kelvin and Angstrom signs; any other
      character does not decompose here. */
  function DecompositionTable(c: char): (t: Decomp)
    ensures c < 'À' || IsMark(c) ==> t.Same?
    ensures !t.Same? ==> t.base < 'À'
    ensures t.Accented? ==> IsMark(t.mark)
  {
    if c < 'À' then Same
    else match c
    case 'À' => Accented('A', '\U{300}')
    case 'Á' => Accented('A', '\U{301}')
    case 'Â' => Accented('A', '\U{302}')
    case 'Ã' => Accented('A', '\U{303}')
    case 'Ä' => Accented('A', '\U{308}')
    case 'Å' => Accented('A', '\U{30A}')
    case 'Ç' => Accented('C', '\U{327}')
    case 'È' => Accented('E', '\U{300}')
    case 'É' => Accented('E', '\U{301}')
    case 'Ê' => Accented('E', '\U{302}')
    case 'Ë' => Accented('E', '\U{308}')
    case 'Ì' => Accented('I', '\U{300}')
    case 'Í' => Accented('I', '\U{301}')
    case 'Î' => Accented('I', '\U{302}')
    case 'Ï' => Accented('I', '\U{308}')
    case 'Ñ' => Accented('N', '\U{303}')
    case 'Ò' => Accented('O', '\U{300}')
    case 'Ó' => Accented('O', '\U{301}')
    case 'Ô' => Accented('O', '\U{302}')
    case 'Õ' => Accented('O', '\U{303}')
    case 'Ö' => Accented('O', '\U{308}')
    case 'Ù' => Accented('U', '\U{300}')
    case 'Ú' => Accented('U', '\U{301}')
    case 'Û' => Accented('U', '\U{302}')
    case 'Ü' => Accented('U', '\U{308}')
    case 'Ý' => Accented('Y', '\U{301}')
    case 'à' => Accented('a', '\U{300}')
    case 'á' => Accented('a', '\U{301}')
    case 'â' => Accented('a', '\U{302}')
    case 'ã' => Accented('a', '\U{303}')
    case 'ä' => Accented('a', '\U{308}')
    case 'å' => Accented('a', '\U{30A}')
    case 'ç' => Accented('c', '\U{327}')
    case 'è' => Accented('e', '\U{300}')
    case 'é' => Accented('e', '\U{301}')
    case 'ê' => Accented('e', '\U{302}')
    case 'ë' => Accented('e', '\U{308}')
    case 'ì' => Accented('i', '\U{300}')
    case 'í' => Accented('i', '\U{301}')
    case 'î' => Accented('i', '\U{302}')
    case 'ï' => Accented('i', '\U{308}')
    case 'ñ' => Accented('n', '\U{303}')
    case 'ò' => Accented('o', '\U{300}')
    case 'ó' => Accented('o', '\U{301}')
    case 'ô' => Accented('o', '\U{302}')
    case 'õ' => Accented('o', '\U{303}')
    case 'ö' => Accented('o', '\U{308}')
    case 'ù' => Accented('u', '\U{300}')
    case 'ú' => Accented('u', '\U{301}')
    case 'û' => Accented('u', '\U{302}')
    case 'ü' => Accented('u', '\U{308}')
    case 'ý' => Accented('y', '\U{301}')
    case 'ÿ' => Accented('y', '\U{308}')
    case 'Ā' => Accented('A', '\U{304}')
    case 'ā' => Accented('a', '\U{304}')
    case 'Ă' => Accented('A', '\U{306}')
    case 'ă' => Accented('a', '\U{306}')
    case 'Ą' => Accented('A', '\U{328}')
    case 'ą' => Accented('a', '\U{328}')
    case 'Ć' => Accented('C', '\U{301}')
    case 'ć' => Accented('c', '\U{301}')
    case 'Ĉ' => Accented('C', '\U{302}')
    case 'ĉ' => Accented('c', '\U{302}')
    case 'Ċ' => Accented('C', '\U{307}')
    case 'ċ' => Accented('c', '\U{307}')
    case 'Č' => Accented('C', '\U{30C}')
    case 'č' => Accented('c', '\U{30C}')
    case 'Ď' => Accented('D', '\U{30C}')
    case 'ď' => Accented('d', '\U{30C}')
    case 'Ē' => Accented('E', '\U{304}')
    case 'ē' => Accented('e', '\U{304}')
    case 'Ĕ' => Accented('E', '\U{306}')
    case 'ĕ' => Accented('e', '\U{306}')
    case 'Ė' => Accented('E', '\U{307}')
    case 'ė' => Accented('e', '\U{307}')
    case 'Ę' => Accented('E', '\U{328}')
    case 'ę' => Accented('e', '\U{328}')
    case 'Ě' => Accented('E', '\U{30C}')
    case 'ě' => Accented('e', '\U{30C}')
    case 'Ĝ' => Accented('G', '\U{302}')
    case 'ĝ' => Accented('g', '\U{302}')
    case 'Ğ' => Accented('G', '\U{306}')
    case 'ğ' => Accented('g', '\U{306}')
    case 'Ġ' => Accented('G', '\U{307}')
    case 'ġ' => Accented('g', '\U{307}')
    case 'Ģ' => Accented('G', '\U{327}')
    case 'ģ' => Accented('g', '\U{327}')
    case 'Ĥ' => Accented('H', '\U{302}')
    case 'ĥ' => Accented('h', '\U{302}')
    case 'Ĩ' => Accented('I', '\U{303}')
    case 'ĩ' => Accented('i', '\U{303}')
    case 'Ī' => Accented('I', '\U{304}')
    case 'ī' => Accented('i', '\U{304}')
    case 'Ĭ' => Accented('I', '\U{306}')
    case 'ĭ' => Accented('i', '\U{306}')
    case 'Į' => Accented('I', '\U{328}')
    case 'į' => Accented('i', '\U{328}')
    case 'İ' => Accented('I', '\U{307}')
    case 'Ĵ' => Accented('J', '\U{302}')
    case 'ĵ' => Accented('j', '\U{302}')
    case 'Ķ' => Accented('K', '\U{327}')
    case 'ķ' => Accented('k', '\U{327}')
    case 'Ĺ' => Accented('L', '\U{301}')
    case 'ĺ' => Accented('l', '\U{301}')
    case 'Ļ' => Accented('L', '\U{327}')
    case 'ļ' => Accented('l', '\U{327}')
    case 'Ľ' => Accented('L', '\U{30C}')
    case 'ľ' => Accented('l', '\U{30C}')
    case 'Ń' => Accented('N', '\U{301}')
    case 'ń' => Accented('n', '\U{301}')
    case 'Ņ' => Accented('N', '\U{327}')
    case 'ņ' => Accented('n', '\U{327}')
    case 'Ň' => Accented('N', '\U{30C}')
    case 'ň' => Accented('n', '\U{30C}')
    case 'Ō' => Accented('O', '\U{304}')
    case 'ō' => Accented('o', '\U{304}')
    case 'Ŏ' => Accented('O', '\U{306}')
    case 'ŏ' => Accented('o', '\U{306}')
    case 'Ő' => Accented('O', '\U{30B}')
    case 'ő' => Accented('o', '\U{30B}')
    case 'Ŕ' => Accented('R', '\U{301}')
    case 'ŕ' => Accented('r', '\U{301}')
    case 'Ŗ' => Accented('R', '\U{327}')
    case 'ŗ' => Accented('r', '\U{327}')
    case 'Ř' => Accented('R', '\U{30C}')
    case 'ř' => Accented('r', '\U{30C}')
    case 'Ś' => Accented('S', '\U{301}')
    case 'ś' => Accented('s', '\U{301}')
    case 'Ŝ' => Accented('S', '\U{302}')
    case 'ŝ' => Accented('s', '\U{302}')
    case 'Ş' => Accented('S', '\U{327}')
    case 'ş' => Accented('s', '\U{327}')
    case 'Š' => Accented('S', '\U{30C}')
    case 'š' => Accented('s', '\U{30C}')
    case 'Ţ' => Accented('T', '\U{327}')
    case 'ţ' => Accented('t', '\U{327}')
    case 'Ť' => Accented('T', '\U{30C}')
    case 'ť' => Accented('t', '\U{30C}')
    case 'Ũ' => Accented('U', '\U{303}')
    case 'ũ' => Accented('u', '\U{303}')
    case 'Ū' => Accented('U', '\U{304}')
    case 'ū' => Accented('u', '\U{304}')
    case 'Ŭ' => Accented('U', '\U{306}')
    case 'ŭ' => Accented('u', '\U{306}')
    case 'Ů' => Accented('U', '\U{30A}')
    case 'ů' => Accented('u', '\U{30A}')
    case 'Ű' => Accented('U', '\U{30B}')
    case 'ű' => Accented('u', '\U{30B}')
    case 'Ų' => Accented('U', '\U{328}')
    case 'ų' => Accented('u', '\U{328}')
    case 'Ŵ' => Accented('W', '\U{302}')
    case 'ŵ' => Accented('w', '\U{302}')
    case 'Ŷ' => Accented('Y', '\U{302}')
    case 'ŷ' => Accented('y', '\U{302}')
    case 'Ÿ' => Accented('Y', '\U{308}')
    case 'Ź' => Accented('Z', '\U{301}')
    case 'ź' => Accented('z', '\U{301}')
    case 'Ż' => Accented('Z', '\U{307}')
    case 'ż' => Accented('z', '\U{307}')
    case 'Ž' => Accented('Z', '\U{30C}')
    case 'ž' => Accented('z', '\U{30C}')
    case '\U{212A}' => Letter('K')
    case '\U{212B}' => Accented('A', '\U{30A}')
    case _ => Same
  }

  /** The canonical decomposition of one character: a character that is not a mark
      becomes a base character followed by combining marks. */
  function Decomposition(c: char): (d: seq<char>)
    ensures |d| >= 1
    ensures c < 'À' || IsMark(c) ==> d == [c]
    ensures d == [c] || d[0] < 'À'
    ensures !IsMark(c) ==> !IsMark(d[0])
    ensures forall i :: 1 <= i < |d| ==> IsMark(d[i])
  {
    match DecompositionTable(c)
    case Same => [c]
    case Letter(b) => [b]
    case Accented(b, m) => [b, m]
  }

  /** `unicodedata.normalize('NFD', s)`, character by character. */
  function Nfd(s: string): string {
    if s == [] then [] else Decomposition(s[0]) + Nfd(s[1..])
  }

  /** A nonspacing mark. Only the Combining Diacritical Marks block (U+0300 to U+036F,
      all of category Mn) is recognised; it holds every mark the table above produces. */
  predicate IsMark(c: char) {
    '\U{300}' <= c <= '\U{36F}'
  }

  predicate IsNotMark(c: char) {
    !IsMark(c)
  }

  /** `str.lower()` on one character; only ASCII letters change here. */
  function LowerChar(c: char): char {
    if 'A' <= c <= 'Z' then (c as int + 32) as char else c
  }

  /** Decomposition, removal of the marks and lower-casing: the steps of
      `normalizar_nombre` that work character by character. */
  function Fold(s: string): string {
    Map(LowerChar, Filter(IsNotMark, Nfd(s)))
  }

  /** A character the pattern `[a-z0-9\s]` keeps. */
  predicate IsPatternChar(c: char) {
    ('a' <= c <= 'z') || ('0' <= c <= '9') || IsSpace(c)
  }

  /** `re.sub(r'\s+', ' ', s)`: every maximal run of whitespace becomes one space. */
  function CollapseSpaces(s: string): (r: string)
    decreases |s|
  {
    if s == [] then []
    else if IsSpace(s[0]) then
      assert |LStrip(s)| < |s|;
      " " + CollapseSpaces(LStrip(s))
    else [s[0]] + CollapseSpaces(s[1..])
  }

  /** A character of a normalised name. */
  predicate IsKeyChar(c: char) {
    ('a' <= c <= 'z') || ('0' <= c <= '9') || c == ' '
  }

  predicate KeyChars(s: string) {
    forall i :: 0 <= i < |s| ==> IsKeyChar(s[i])
  }

  predicate NoDoubleSpace(s: string) {
    forall i :: 0 <= i < |s| - 1 ==> !(s[i] == ' ' && s[i + 1] == ' ')
  }

  /** The shape of every normalised name: only `a-z`, `0-9` and single spaces, and no
      space at either end. */
  predicate IsKey(s: string) {
    KeyChars(s) && NoDoubleSpace(s) && (s == [] || (s[0] != ' ' && s[|s| - 1] != ' '))
  }

  /** `normalizar_nombre(nombre)`. `None` stands for a null or non-string value, which
      gives the empty key; no input makes it fail. */
  function Normalize(name: Option<string>): (key: string)
    ensures name.None? ==> key == ""
    ensures IsKey(key)
  {
    match name
    case None => ""
    case Some(s) =>
      var folded := Strip(Fold(s));
      var kept := Filter(IsPatternChar, folded);
      var collapsed := CollapseSpaces(kept);
      CollapseGivesKeyChars(kept);
      StripKeepsKey(collapsed);
      Strip(collapsed)
  }

  predicate PatternChars(s: string) {
    forall i :: 0 <= i < |s| ==> IsPatternChar(s[i])
  }

  /** After the `[^a-z0-9\s]` removal, collapsing whitespace leaves only key characters
      and no two spaces in a row; a string that starts with a non-space keeps its first
      character. */
  lemma {:induction false} CollapseGivesKeyChars(s: string)
    requires PatternChars(s)
    ensures KeyChars(CollapseSpaces(s)) && NoDoubleSpace(CollapseSpaces(s))
    ensures s != [] && !IsSpace(s[0]) ==> CollapseSpaces(s) != [] && CollapseSpaces(s)[0] == s[0]
    decreases |s|
  {
    if s != [] {
      if IsSpace(s[0]) {
        var t := LStrip(s);
        assert forall i :: 0 <= i < |t| ==> t[i] == s[|s| - |t| + i];
        CollapseGivesKeyChars(t);
        KeyCharsCons(' ', CollapseSpaces(t));
      } else {
        var t := s[1..];
        assert forall i :: 0 <= i < |t| ==> t[i] == s[i + 1];
        CollapseGivesKeyChars(t);
        KeyCharsCons(s[0], CollapseSpaces(t));
      }
    }
  }

  /** A key character in front of key characters without double spaces keeps them so,
      unless it is a space in front of a space. */
  lemma KeyCharsCons(c: char, r: string)
    requires IsKeyChar(c) && KeyChars(r) && NoDoubleSpace(r)
    requires c == ' ' ==> r == [] || r[0] != ' '
    ensures KeyChars([c] + r) && NoDoubleSpace([c] + r)
  {
    var s := [c] + r;
    assert forall i :: 1 <= i < |s| ==> s[i] == r[i - 1];
  }

  /** A slice of a string of key characters without double spaces is one too. */
  lemma SliceKeepsKeyChars(s: string, lo: int, hi: int)
    requires KeyChars(s) && NoDoubleSpace(s) && 0 <= lo <= hi <= |s|
    ensures KeyChars(s[lo..hi]) && NoDoubleSpace(s[lo..hi])
  {
    var t := s[lo..hi];
    assert forall i :: 0 <= i < |t| ==> t[i] == s[lo + i];
  }

  /** Trimming a string of key characters without double spaces yields a key. */
  lemma StripKeepsKey(s: string)
    requires KeyChars(s) && NoDoubleSpace(s)
    ensures IsKey(Strip(s))
  {
    var l := LStrip(s);
    var r := RStrip(l);
    assert Strip(s) == r;
    TrimmedKeepsKey(s, l, r);
  }

  /** What is left of a string of key characters without double spaces once some
      characters are cut from the front and from the back, with no space at either
      end, is a key. */
  lemma TrimmedKeepsKey(s: string, l: string, r: string)
    requires KeyChars(s) && NoDoubleSpace(s)
    requires |l| <= |s| && l == s[|s| - |l|..] && (l == [] || !IsSpace(l[0]))
    requires |r| <= |l| && r == l[..|r|] && (r == [] || !IsSpace(r[|r| - 1]))
    ensures IsKey(r)
  {
    var k := |s| - |l|;
    assert s[k..][..|r|] == s[k..k + |r|];
    SliceKeepsKeyChars(s, k, k + |r|);
    if r != [] {
      assert r[0] == l[0];
    }
  }

  /** Decomposition leaves characters below U+00C0 (all of ASCII) alone. */
  lemma {:induction false} NfdFixesBelowLatin1Letters(s: string)
    requires forall i :: 0 <= i < |s| ==> s[i] < 'À'
    ensures Nfd(s) == s
  {
    if s != [] {
      NfdFixesBelowLatin1Letters(s[1..]);
      assert s == [s[0]] + s[1..];
    }
  }

  /** Collapsing leaves a string alone when its only whitespace is single spaces. */
  lemma {:induction false} CollapseFixesKeys(s: string)
    requires KeyChars(s) && NoDoubleSpace(s)
    ensures CollapseSpaces(s) == s
  {
    if s != [] {
      var t := s[1..];
      assert forall i :: 0 <= i < |t| ==> t[i] == s[i + 1];
      assert KeyChars(t) && NoDoubleSpace(t);
      CollapseFixesKeys(t);
      KeyCharSpace(s[0]);
      if s[0] == ' ' {
        if t != [] {
          KeyCharSpace(t[0]);
        }
        assert LStrip(t) == t;
        assert LStrip(s) == t;
        assert CollapseSpaces(s) == " " + t;
      } else {
        assert CollapseSpaces(s) == [s[0]] + t;
      }
      assert s == [s[0]] + t;
    }
  }

  /** The only whitespace a key holds is the plain space. */
  lemma KeyCharSpace(c: char)
    requires IsKeyChar(c)
    ensures IsSpace(c) <==> c == ' '
  {
  }

  /** The steps before the pattern removal leave a key alone. */
  lemma FoldFixesKeys(key: string)
    requires IsKey(key)
    ensures Strip(Fold(key)) == key
  {
    forall i | 0 <= i < |key|
      ensures key[i] < 'À' && !('A' <= key[i] <= 'Z')
    {
      KeyCharFixed(key[i]);
    }
    FoldFixedText(key);
    if key != [] {
      KeyCharSpace(key[0]);
      KeyCharSpace(key[|key| - 1]);
    }
    StripTrimmed(key);
  }

  /** A key character is plain ASCII: not decomposed, not a mark, already lower case. */
  lemma KeyCharFixed(c: char)
    requires IsKeyChar(c)
    ensures c < 'À' && IsNotMark(c) && LowerChar(c) == c
  {
  }

  /** The steps from the pattern removal on leave a key alone. */
  lemma CleanFixesKeys(key: string)
    requires IsKey(key)
    ensures Strip(CollapseSpaces(Filter(IsPatternChar, key))) == key
  {
    FilterKeepsAll(IsPatternChar, key);
    CollapseFixesKeys(key);
    StripTrimmed(key);
  }

  /** Every normalised name is its own normal form. */
  lemma NormalizeFixesKeys(key: string)
    requires IsKey(key)
    ensures Normalize(Some(key)) == key
  {
    FoldFixesKeys(key);
    CleanFixesKeys(key);
  }

  /** `normalizar_nombre` is idempotent. */
  lemma NormalizeIdempotent(name: Option<string>)
    ensures Normalize(Some(Normalize(name))) == Normalize(name)
  {
    NormalizeFixesKeys(Normalize(name));
  }

  // ------------------------------------------- what the folding steps do

  /** The base letter of a character: the first character of its decomposition. */
  function Base(c: char): char {
    Decomposition(c)[0]
  }

  lemma {:induction false} NfdConcat(a: string, b: string)
    ensures Nfd(a + b) == Nfd(a) + Nfd(b)
  {
    if a == [] {
      assert a + b == b;
    } else {
      assert (a + b)[0] == a[0] && (a + b)[1..] == a[1..] + b;
      NfdConcat(a[1..], b);
    }
  }

  /** Folding works character by character. */
  lemma FoldConcat(a: string, b: string)
    ensures Fold(a + b) == Fold(a) + Fold(b)
  {
    NfdConcat(a, b);
    FilterConcat(IsNotMark, Nfd(a), Nfd(b));
    MapConcat(LowerChar, Filter(IsNotMark, Nfd(a)), Filter(IsNotMark, Nfd(b)));
  }

  /** A character that is not itself a mark folds to its lower-cased base letter: the
      marks of its decomposition are dropped. */
  lemma FoldChar(c: char)
    requires !IsMark(c)
    ensures Fold([c]) == [LowerChar(Base(c))]
  {
    var d := Decomposition(c);
    assert [c][1..] == [];
    assert Nfd([c]) == d;
    MarksDropped(d);
    assert Map(LowerChar, [d[0]]) == [LowerChar(d[0])];
  }

  /** Removing the marks of a base character followed by marks leaves the base. */
  lemma MarksDropped(d: string)
    requires |d| >= 1 && !IsMark(d[0])
    requires forall i :: 1 <= i < |d| ==> IsMark(d[i])
    ensures Filter(IsNotMark, d) == [d[0]]
  {
    assert forall i :: 0 <= i < |d[1..]| ==> !IsNotMark(d[1..][i]);
    assert Filter(IsNotMark, d[1..]) == [];
  }

  /** Replacing one character by another that folds the same way does not change the
      normalised name. */
  lemma NormalizeSameFold(s1: string, c: char, e: char, s2: string)
    requires Fold([c]) == Fold([e])
    ensures Normalize(Some(s1 + [c] + s2)) == Normalize(Some(s1 + [e] + s2))
  {
    FoldConcat(s1 + [c], s2);
    FoldConcat(s1, [c]);
    FoldConcat(s1 + [e], s2);
    FoldConcat(s1, [e]);
  }

  /** An accented letter counts as its base letter: `"Café"` and `"Cafe"` normalise
      alike. */
  lemma {:induction false} NormalizeDropsAccents(s1: string, c: char, s2: string)
    requires !IsMark(c)
    ensures Normalize(Some(s1 + [c] + s2)) == Normalize(Some(s1 + [Base(c)] + s2))
  {
    var b := Base(c);
    FoldChar(c);
    assert Decomposition(b) == [b];
    FoldChar(b);
    assert Base(b) == b;
    NormalizeSameFold(s1, c, b, s2);
  }

  /** An ASCII capital counts as its lower-case letter: `"CAFE"` and `"cafe"` normalise
      alike. */
  lemma {:induction false} NormalizeLowersCase(s1: string, c: char, s2: string)
    requires 'A' <= c <= 'Z'
    ensures Normalize(Some(s1 + [c] + s2)) == Normalize(Some(s1 + [LowerChar(c)] + s2))
  {
    FoldChar(c);
    FoldChar(LowerChar(c));
    NormalizeSameFold(s1, c, LowerChar(c), s2);
  }

  /** On text below U+00C0 folding is lower-casing. */
  lemma FoldBelowLatin1Letters(s: string)
    requires forall i :: 0 <= i < |s| ==> s[i] < 'À'
    ensures Fold(s) == Map(LowerChar, s)
  {
    NfdFixesBelowLatin1Letters(s);
    FilterKeepsAll(IsNotMark, s);
  }

  /** Text that folding leaves alone: below U+00C0 and without ASCII capitals. */
  predicate FoldFixed(s: string) {
    forall i :: 0 <= i < |s| ==> s[i] < 'À' && !('A' <= s[i] <= 'Z')
  }

  lemma FoldFixedText(s: string)
    requires FoldFixed(s)
    ensures Fold(s) == s
  {
    FoldBelowLatin1Letters(s);
    MapFixes(LowerChar, s);
  }

  /** Capitals anywhere in text below U+00C0 count as their lower-case letters. */
  lemma NormalizeLowersAll(s: string)
    requires forall i :: 0 <= i < |s| ==> s[i] < 'À'
    ensures Normalize(Some(s)) == Normalize(Some(Map(LowerChar, s)))
  {
    var lower := Map(LowerChar, s);
    FoldBelowLatin1Letters(s);
    FoldBelowLatin1Letters(lower);
    MapFixes(LowerChar, lower);
  }

  /** A whitespace character added after a string adds at most one space to its
      collapse. */
  lemma {:induction false} CollapseAppendSpace(y: string, c: char)
    requires IsSpace(c)
    ensures CollapseSpaces(y + [c]) == CollapseSpaces(y) || CollapseSpaces(y + [c]) == CollapseSpaces(y) + " "
    decreases |y|
  {
    if y == [] {
      assert y + [c] == [c] && [c][1..] == [];
      assert LStrip([c]) == [];
      assert CollapseSpaces([c]) == " " + CollapseSpaces([]);
    } else {
      assert (y + [c])[0] == y[0] && (y + [c])[1..] == y[1..] + [c];
      if IsSpace(y[0]) {
        var l := LStrip(y);
        LStripAppend(y, [c]);
        assert CollapseSpaces(y) == " " + CollapseSpaces(l);
        if l == [] {
          assert [c][1..] == [] && LStrip([c]) == [];
          assert CollapseSpaces(y + [c]) == " " + CollapseSpaces([]);
        } else {
          assert CollapseSpaces(y + [c]) == " " + CollapseSpaces(l + [c]);
          CollapseAppendSpace(l, c);
          ConsAppend(" ", CollapseSpaces(l), " ");
        }
      } else {
        assert CollapseSpaces(y + [c]) == [y[0]] + CollapseSpaces(y[1..] + [c]);
        assert CollapseSpaces(y) == [y[0]] + CollapseSpaces(y[1..]);
        CollapseAppendSpace(y[1..], c);
        ConsAppend([y[0]], CollapseSpaces(y[1..]), " ");
      }
    }
  }

  lemma ConsAppend(a: string, b: string, c: string)
    ensures a + (b + c) == (a + b) + c
  {
  }

  /** The collapse of a string that starts with whitespace, once stripped, is that of
      the string without its leading whitespace. */
  lemma StripCollapseLStrip(y: string)
    ensures Strip(CollapseSpaces(y)) == Strip(CollapseSpaces(LStrip(y)))
  {
    if y != [] && IsSpace(y[0]) {
      StripConsSpace(CollapseSpaces(LStrip(y)));
    }
  }

  /** A whitespace character in front of a string does not change its collapsed,
      stripped form. */
  lemma CollapseLeadingSpace(c: char, y: string)
    requires IsSpace(c)
    ensures Strip(CollapseSpaces([c] + y)) == Strip(CollapseSpaces(y))
  {
    assert ([c] + y)[0] == c && ([c] + y)[1..] == y;
    assert LStrip([c] + y) == LStrip(y);
    StripConsSpace(CollapseSpaces(LStrip(y)));
    StripCollapseLStrip(y);
  }

  /** A whitespace character after a string does not change its collapsed, stripped
      form. */
  lemma CollapseTrailingSpace(y: string, c: char)
    requires IsSpace(c)
    ensures Strip(CollapseSpaces(y + [c])) == Strip(CollapseSpaces(y))
  {
    CollapseAppendSpace(y, c);
    StripAppendSpace(CollapseSpaces(y));
  }

  /** The pattern removal, the collapse and the final `strip()`: what `normalizar_nombre`
      does after folding and trimming. */
  function Cleaned(x: string): string {
    Strip(CollapseSpaces(Filter(IsPatternChar, x)))
  }

  /** A leading whitespace character makes no difference to the cleaned text. */
  lemma DropLeadingSpace(x: string)
    requires x != [] && IsSpace(x[0])
    ensures Cleaned(x) == Cleaned(x[1..])
  {
    var y := Filter(IsPatternChar, x[1..]);
    calc {
      Filter(IsPatternChar, x);
      { assert x == [x[0]] + x[1..]; FilterConcat(IsPatternChar, [x[0]], x[1..]); }
      Filter(IsPatternChar, [x[0]]) + y;
      [x[0]] + y;
    }
    CollapseLeadingSpace(x[0], y);
  }

  /** A trailing whitespace character makes no difference to the cleaned text. */
  lemma DropTrailingSpace(x: string)
    requires x != [] && IsSpace(x[|x| - 1])
    ensures Cleaned(x) == Cleaned(x[..|x| - 1])
  {
    var c := x[|x| - 1];
    var y := Filter(IsPatternChar, x[..|x| - 1]);
    calc {
      Filter(IsPatternChar, x);
      { assert x == x[..|x| - 1] + [c]; FilterConcat(IsPatternChar, x[..|x| - 1], [c]); }
      y + Filter(IsPatternChar, [c]);
      y + [c];
    }
    CollapseTrailingSpace(y, c);
  }

  lemma {:induction false} LStripAbsorbed(x: string)
    ensures Cleaned(LStrip(x)) == Cleaned(x)
    decreases |x|
  {
    if x != [] && IsSpace(x[0]) {
      LStripAbsorbed(x[1..]);
      DropLeadingSpace(x);
    }
  }

  lemma {:induction false} RStripAbsorbed(x: string)
    ensures Cleaned(RStrip(x)) == Cleaned(x)
    decreases |x|
  {
    if x != [] && IsSpace(x[|x| - 1]) {
      RStripAbsorbed(x[..|x| - 1]);
      DropTrailingSpace(x);
    }
  }

  /** The `strip()` before the pattern removal makes no difference: the regex keeps
      whitespace, and the collapse and the final `strip()` absorb it. */
  lemma StripAbsorbed(x: string)
    ensures Cleaned(Strip(x)) == Cleaned(x)
  {
    LStripAbsorbed(x);
    RStripAbsorbed(LStrip(x));
  }

  /** A normalised name is the pattern removal, the collapse and the `strip()` applied to
      the folded name. */
  lemma NormalizeAsFolded(s: string)
    ensures Normalize(Some(s)) == Cleaned(Fold(s))
  {
    StripAbsorbed(Fold(s));
  }

  /** Text that folds to nothing `[a-z0-9\s]` keeps, anywhere in a name, is deleted. */
  lemma NormalizeDropsText(s1: string, t: string, s2: string)
    requires Filter(IsPatternChar, Fold(t)) == []
    ensures Normalize(Some(s1 + t + s2)) == Normalize(Some(s1 + s2))
  {
    calc {
      Normalize(Some(s1 + t + s2));
      { NormalizeAsFolded(s1 + t + s2); }
      Cleaned(Fold(s1 + t + s2));
      { KeptFolded(s1, t, s2); }
      Cleaned(Fold(s1 + s2));
      { NormalizeAsFolded(s1 + s2); }
      Normalize(Some(s1 + s2));
    }
  }

  lemma KeptFolded(s1: string, t: string, s2: string)
    requires Filter(IsPatternChar, Fold(t)) == []
    ensures Filter(IsPatternChar, Fold(s1 + t + s2)) == Filter(IsPatternChar, Fold(s1 + s2))
  {
    var f1, ft, f2 := Fold(s1), Fold(t), Fold(s2);
    calc {
      Filter(IsPatternChar, Fold(s1 + t + s2));
      { FoldConcat(s1 + t, s2); FoldConcat(s1, t); }
      Filter(IsPatternChar, f1 + ft + f2);
      { FilterConcat(IsPatternChar, f1 + ft, f2); FilterConcat(IsPatternChar, f1, ft); }
      Filter(IsPatternChar, f1) + Filter(IsPatternChar, ft) + Filter(IsPatternChar, f2);
      Filter(IsPatternChar, f1) + [] + Filter(IsPatternChar, f2);
      { assert Filter(IsPatternChar, f1) + [] == Filter(IsPatternChar, f1); }
      Filter(IsPatternChar, f1) + Filter(IsPatternChar, f2);
      { FilterConcat(IsPatternChar, f1, f2); }
      Filter(IsPatternChar, f1 + f2);
      { FoldConcat(s1, s2); }
      Filter(IsPatternChar, Fold(s1 + s2));
    }
  }

  /** A symbol whose base letter, lower-cased, is outside `[a-z0-9\s]` (a comma, a dot)
      is deleted wherever it stands in a name: `"cafe, sa"` and `"cafe sa"` normalise
      alike. */
  lemma NormalizeDropsSymbol(s1: string, c: char, s2: string)
    requires !IsMark(c) && !IsPatternChar(LowerChar(Base(c)))
    ensures Normalize(Some(s1 + [c] + s2)) == Normalize(Some(s1 + s2))
  {
    FoldChar(c);
    assert Filter(IsPatternChar, [LowerChar(Base(c))]) == [];
    NormalizeDropsText(s1, [c], s2);
  }

  /** On folded text without whitespace at either end only the pattern removal, the
      collapse and the final trim act. */
  lemma NormalizeTrimmedFolded(t: string)
    requires FoldFixed(t) && t != [] && !IsSpace(t[0]) && !IsSpace(t[|t| - 1])
    ensures Normalize(Some(t)) == Strip(CollapseSpaces(Filter(IsPatternChar, t)))
  {
    FoldFixedText(t);
    StripTrimmed(t);
  }

  // ------------------------------------------ the catalog's `"CAFÉ, S.A."`

  lemma CafeAccent()
    ensures Normalize(Some("CAFÉ, S.A.")) == Normalize(Some("CAFE, S.A."))
  {
    assert Base('É') == 'E';
    assert "CAF" + ['É'] + ", S.A." == "CAFÉ, S.A.";
    assert "CAF" + [Base('É')] + ", S.A." == "CAFE, S.A.";
    NormalizeDropsAccents("CAF", 'É', ", S.A.");
  }

  lemma CafeAccentMixed()
    ensures Normalize(Some("Café, S.A.")) == Normalize(Some("Cafe, S.A."))
  {
    assert Base('é') == 'e';
    assert "Caf" + ['é'] + ", S.A." == "Café, S.A.";
    assert "Caf" + [Base('é')] + ", S.A." == "Cafe, S.A.";
    NormalizeDropsAccents("Caf", 'é', ", S.A.");
  }

  lemma CafeLowerMixed()
    ensures Normalize(Some("Cafe, S.A.")) == Normalize(Some("cafe, s.a."))
  {
    assert Map(LowerChar, "Cafe, S.A.") == "cafe, s.a.";
    NormalizeLowersAll("Cafe, S.A.");
  }

  lemma CafeLower()
    ensures Normalize(Some("CAFE, S.A.")) == Normalize(Some("cafe, s.a."))
  {
    assert Map(LowerChar, "CAFE, S.A.") == "cafe, s.a.";
    NormalizeLowersAll("CAFE, S.A.");
  }

  lemma CafeLowerTyped()
    ensures Normalize(Some("Cafe S.A.")) == Normalize(Some("cafe s.a."))
  {
    assert Map(LowerChar, "Cafe S.A.") == "cafe s.a.";
    NormalizeLowersAll("Cafe S.A.");
  }

  lemma CafeComma()
    ensures Normalize(Some("cafe, s.a.")) == Normalize(Some("cafe s.a."))
  {
    assert "cafe" + [','] + " s.a." == "cafe, s.a.";
    assert "cafe" + " s.a." == "cafe s.a.";
    NormalizeDropsSymbol("cafe", ',', " s.a.");
  }

  lemma CafeInnerDot()
    ensures Normalize(Some("cafe s.a.")) == Normalize(Some("cafe sa."))
  {
    assert "cafe s" + ['.'] + "a." == "cafe s.a.";
    assert "cafe s" + "a." == "cafe sa.";
    NormalizeDropsSymbol("cafe s", '.', "a.");
  }

  lemma CafeFinalDot()
    ensures Normalize(Some("cafe sa.")) == "cafe sa"
  {
    assert "cafe sa" + ['.'] + [] == "cafe sa.";
    assert "cafe sa" + [] == "cafe sa";
    NormalizeDropsSymbol("cafe sa", '.', []);
    CafeKey();
  }

  lemma CafeKey()
    ensures Normalize(Some("cafe sa")) == "cafe sa"
  {
    NormalizeFixesKeys("cafe sa");
  }

  /** The name of a catalog company and the one typed on a charge meet under one key:
      `"CAFÉ, S.A."`, `"Café, S.A."` and `"Cafe S.A."` all normalise to `"cafe sa"`. */
  lemma CafeExample()
    ensures Normalize(Some("CAFÉ, S.A.")) == "cafe sa"
    ensures Normalize(Some("Café, S.A.")) == "cafe sa"
    ensures Normalize(Some("Cafe S.A.")) == "cafe sa"
  {
    CafeAccent();
    CafeAccentMixed();
    CafeLowerMixed();
    CafeLower();
    CafeComma();
    CafeLowerTyped();
    CafeInnerDot();
    CafeFinalDot();
  }
}
