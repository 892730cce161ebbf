/** Playing cards and their two-character labels (contracts/include/blackjack/card.hpp).

    A card is the unsigned code `rank * 4 + colour`; the 52 codes 0..51 are
    the cards of one deck, labelled "2c", "2d", ..., "As".  Every code of a
    real card comes from a label or from an integer; a label that is not in
    the table gives code 52, which the production build rejects. */
module Cards {
  import opened Results

  const RANKS: seq<char> := ['2', '3', '4', '5', '6', '7', '8', '9', 'T', 'J', 'Q', 'K', 'A']
  const COLORS: seq<char> := ['c', 'd', 'h', 's']

  /** Number of cards in one deck, |RANKS| * |COLORS|. */
  const DECK_SIZE: nat := 52

  /** The card's code; the C++ field is a 32-bit `unsigned`. */
  datatype Card = Card(value: nat)

  // ---------------------------------------------------------------------
  // The label table

  /** Position of a rank character in RANKS, or 13 when it is not a rank. */
  function RankIndex(ch: char): (r: nat)
    ensures r <= |RANKS|
    ensures r < |RANKS| ==> RANKS[r] == ch
    ensures r == |RANKS| ==> ch !in RANKS
  {
    match ch
    case '2' => 0 case '3' => 1 case '4' => 2 case '5' => 3 case '6' => 4
    case '7' => 5 case '8' => 6 case '9' => 7 case 'T' => 8 case 'J' => 9
    case 'Q' => 10 case 'K' => 11 case 'A' => 12
    case _ => 13
  }

  /** Position of a colour character in COLORS, or 4 when it is not a colour. */
  function ColorIndex(ch: char): (c: nat)
    ensures c <= |COLORS|
    ensures c < |COLORS| ==> COLORS[c] == ch
    ensures c == |COLORS| ==> ch !in COLORS
  {
    match ch
    case 'c' => 0 case 'd' => 1 case 'h' => 2 case 's' => 3
    case _ => 4
  }

  /** The table that get_labels builds: rank-major, colour-minor. */
  function LabelTable(): (t: seq<string>)
    ensures |t| == DECK_SIZE
  {
    seq(DECK_SIZE, v requires 0 <= v < DECK_SIZE => [RANKS[v / 4], COLORS[v % 4]])
  }

  /** get_labels: two nested loops, pushing rank then colour for every pair. */
  method GetLabels() returns (labels: seq<string>)
    ensures labels == LabelTable()
  {
    labels := [];
    ghost var table := LabelTable();
    var r := 0;
    while r < |RANKS|
      invariant 0 <= r <= |RANKS|
      invariant labels == table[..4 * r]
    {
      var c := 0;
      while c < |COLORS|
        invariant 0 <= c <= |COLORS|
        invariant labels == table[..4 * r + c]
      {
        var entry := [RANKS[r], COLORS[c]];
        assert (4 * r + c) / 4 == r && (4 * r + c) % 4 == c;
        assert table[..4 * r + c + 1] == table[..4 * r + c] + [entry];
        labels := labels + [entry];
        c := c + 1;
      }
      r := r + 1;
    }
    assert table[..DECK_SIZE] == table;
  }

  /** std::find: the index of the first element equal to `s`, or |labels|. */
  method Find(labels: seq<string>, s: string) returns (i: nat)
    ensures i <= |labels|
    ensures i < |labels| ==> labels[i] == s
    ensures forall k :: 0 <= k < i ==> labels[k] != s
  {
    i := 0;
    while i < |labels| && labels[i] != s
      invariant i <= |labels|
      invariant forall k :: 0 <= k < i ==> labels[k] != s
    {
      i := i + 1;
    }
  }

  /** The code a label stands for, decoded from its two characters; 52 for a
      string that is not a label (the end position of std::find). */
  function LabelValue(s: string): (v: nat)
    ensures v <= DECK_SIZE
  {
    if |s| == 2 && RankIndex(s[0]) < |RANKS| && ColorIndex(s[1]) < |COLORS|
    then 4 * RankIndex(s[0]) + ColorIndex(s[1])
    else DECK_SIZE
  }

  /** Every label of the table decodes back to its own position. */
  lemma DecodeLabel(v: nat)
    requires v < DECK_SIZE
    ensures LabelValue(LabelTable()[v]) == v
  {
    var s := LabelTable()[v];
    assert s == [RANKS[v / 4], COLORS[v % 4]];
    assert RankIndex(s[0]) == v / 4;
    assert ColorIndex(s[1]) == v % 4;
  }

  /** get_labels returns 52 labels, the one at r*4+c is RANKS[r] then
      COLORS[c], and no label occurs twice. */
  lemma LabelTableShape(r: nat, c: nat)
    requires r < |RANKS| && c < |COLORS|
    ensures |LabelTable()| == DECK_SIZE
    ensures LabelTable()[4 * r + c] == [RANKS[r], COLORS[c]]
    ensures forall i, j :: 0 <= i < j < DECK_SIZE ==> LabelTable()[i] != LabelTable()[j]
  {
    var v := 4 * r + c;
    assert v / 4 == r && v % 4 == c;
    forall i, j | 0 <= i < j < DECK_SIZE
      ensures LabelTable()[i] != LabelTable()[j]
    {
      DecodeLabel(i);
      DecodeLabel(j);
    }
  }

  /** The decoder agrees with std::find over the table: LabelValue(s) is the
      first position holding `s`, and 52 exactly when `s` is absent. */
  lemma LabelValueIsFind(s: string)
    ensures LabelValue(s) < DECK_SIZE ==> LabelTable()[LabelValue(s)] == s
    ensures forall k :: 0 <= k < LabelValue(s) ==> LabelTable()[k] != s
    ensures LabelValue(s) == DECK_SIZE <==> s !in LabelTable()
  {
    var v := LabelValue(s);
    if v < DECK_SIZE {
      var r, c := RankIndex(s[0]), ColorIndex(s[1]);
      assert v / 4 == r && v % 4 == c;
      assert LabelTable()[v] == s;
      forall k | 0 <= k < v ensures LabelTable()[k] != s {
        DecodeLabel(k);
      }
    } else {
      forall k | 0 <= k < DECK_SIZE ensures LabelTable()[k] != s {
        DecodeLabel(k);
      }
    }
  }

  // ---------------------------------------------------------------------
  // Constructors (production build: an unknown label is rejected)

  /** The card a label denotes, or the "invalid card" failure. */
  function Parse(s: string): (r: Result<Card>)
    ensures r.Success? <==> s in LabelTable()
    ensures r.Success? ==> IsValid(r.value) && LabelTable()[r.value.value] == s
    ensures r.Failure? ==> r.error == Check("invalid card: " + s)
  {
    LabelValueIsFind(s);
    if LabelValue(s) < DECK_SIZE then Success(Card(LabelValue(s)))
    else Failure(Check("invalid card: " + s))
  }

  /** card(const std::string&): look the label up in the table. */
  method FromString(s: string) returns (r: Result<Card>)
    ensures r == Parse(s)
  {
    var labels := GetLabels();
    var i := Find(labels, s);
    LabelValueIsFind(s);
    if i < DECK_SIZE {
      assert i == LabelValue(s);
      r := Success(Card(i));
    } else {
      r := Failure(Check("invalid card: " + s));
    }
  }

  /** std::string(s) for a char array: the characters before the first NUL. */
  function CString(s: seq<char>): (t: seq<char>)
    ensures |t| <= |s| && t == s[..|t|]
    ensures '\0' !in t
    ensures |t| == |s| || s[|t|] == '\0'
  {
    if s == [] || s[0] == '\0' then [] else [s[0]] + CString(s[1..])
  }

  /** card(const char s[3]): only the first two characters are looked up;
      the error message quotes the whole C string. */
  method FromChars(s: seq<char>) returns (r: Result<Card>)
    requires |s| == 3
    ensures r.Success? <==> Parse(s[..2]).Success?
    ensures r.Success? ==> r == Parse(s[..2])
    ensures r.Failure? ==> r.error == Check("invalid card: " + CString(s))
  {
    var labels := GetLabels();
    var key := [s[0], s[1]];
    assert key == s[..2];
    var i := Find(labels, key);
    LabelValueIsFind(key);
    if i < DECK_SIZE {
      assert i == LabelValue(key);
      r := Success(Card(i));
    } else {
      r := Failure(Check("invalid card: " + CString(s)));
    }
  }

  /** card(int v): the int is converted to the 32-bit unsigned field. */
  function FromInt(v: int): (c: Card)
    ensures c.value < 0x1_0000_0000
    ensures 0 <= v < 0x1_0000_0000 ==> c.value == v
  {
    Card(v % 0x1_0000_0000)
  }

  // ---------------------------------------------------------------------
  // Projections, printing and comparison

  function Rank(c: Card): (r: nat)
    ensures 4 * r <= c.value < 4 * r + 4
    ensures IsValid(c) <==> r < |RANKS|
  {
    c.value / 4
  }

  function Color(c: Card): (k: nat)
    ensures k < |COLORS|
    ensures c.value == 4 * Rank(c) + k
  {
    c.value % 4
  }

  /** The rank just above this card's (may be one past ACE). */
  function NextRank(c: Card): (n: nat)
    ensures n == Rank(Card(c.value + 4)) && Color(Card(c.value + 4)) == Color(c)
    ensures IsValid(c) ==> (n < |RANKS| <==> c.value < DECK_SIZE - 4)
  {
    c.value / 4 + 1
  }

  /** operator bool: the code names one of the 52 cards. */
  predicate IsValid(c: Card)
    ensures IsValid(c) <==> c.value < |LabelTable()|
  {
    0 <= c.value && c.value < DECK_SIZE
  }

  /** to_string: RANKS.at(rank) followed by COLORS.at(colour); `at` throws
      for a rank past ACE. */
  function ToString(c: Card): (r: Result<string>)
    ensures r.Success? <==> IsValid(c)
    ensures r.Success? ==> r.value == LabelTable()[c.value]
    ensures r.Failure? ==> r.error == OutOfRange
  {
    if Rank(c) < |RANKS| then Success([RANKS[Rank(c)], COLORS[Color(c)]])
    else Failure(OutOfRange)
  }

  /** operator<: cards are ordered by rank alone. */
  predicate Less(a: Card, b: Card)
    ensures Less(a, b) ==> a.value < b.value && !Same(a, b)
  {
    Rank(a) < Rank(b)
  }

  /** operator>. */
  predicate Greater(a: Card, b: Card)
    ensures Greater(a, b) ==> a.value > b.value && !Same(a, b)
  {
    Rank(a) > Rank(b)
  }

  /** operator==: equal codes, so rank and colour. */
  predicate Same(a: Card, b: Card)
    ensures Same(a, b) <==> Rank(a) == Rank(b) && Color(a) == Color(b)
  {
    a.value == b.value
  }

  // ---------------------------------------------------------------------
  // Properties of the codec

  /** A table label parses to a valid card whose printed label is itself. */
  lemma LabelRoundTrip(s: string)
    requires s in LabelTable()
    ensures Parse(s).Success? && IsValid(Parse(s).value)
    ensures ToString(Parse(s).value) == Success(s)
  {
    LabelValueIsFind(s);
  }

  /** Every code 0..51 prints to a label that parses back to the same code:
      together with LabelRoundTrip, the encoding is a bijection. */
  lemma ValueRoundTrip(v: int)
    requires 0 <= v < DECK_SIZE
    ensures ToString(FromInt(v)).Success?
    ensures Parse(ToString(FromInt(v)).value) == Success(FromInt(v))
    ensures LabelValue(ToString(FromInt(v)).value) == v
  {
    DecodeLabel(v);
  }

  /** A string outside the table decodes to 52 and is rejected. */
  lemma UnknownLabel(s: string)
    requires s !in LabelTable()
    ensures LabelValue(s) == DECK_SIZE
    ensures Parse(s) == Failure(Check("invalid card: " + s))
  {
    LabelValueIsFind(s);
  }

  /** Two cards of one rank and different colours are neither less, greater
      nor equal; equal cards are neither less nor greater. */
  lemma OrderIgnoresColor(a: Card, b: Card)
    ensures Rank(a) == Rank(b) && Color(a) != Color(b) ==> !Less(a, b) && !Greater(a, b) && !Same(a, b)
    ensures Same(a, b) ==> !Less(a, b) && !Greater(a, b)
    ensures Less(a, b) <==> Greater(b, a)
  {
  }
}
