/**
 * The note namer: a MIDI note number becomes a label made of a pitch-class
 * name, right-aligned in a field two characters wide, followed by the
 * octave number. `ReadLabel` reads a label back into its two parts, which
 * is how the lemmas below state what a label says.
 */
module NoteNamer {

  import opened Wrappers
  import opened Midi
  import Decimal

  const SignCount: nat := 12

  /** The pitch-class names, indexed by `note % 12`. */
  const Signs: seq<string> := ["C", "C#", "D", "D#", "E", "F", "F#", "G", "G#", "A", "A#", "B"]

  /** Width of the pitch-class field. */
  const FieldWidth: nat := 2

  /** A pitch class (0 = C) and an octave, the two things a label shows. */
  datatype Pitch = Pitch(pitchClass: nat, octave: int)

  function PitchClass(x: byte): (pc: nat)
    ensures pc < SignCount
  {
    x % SignCount
  }

  /**
   * The octave as the program computes it in `i16`: the operands are
   * non-negative, so Rust's truncating division agrees with Dafny's.
   */
  function Octave(x: byte): (o: int)
    ensures -1 <= o <= 20
  {
    x / SignCount - 1
  }

  /** `s` right-aligned in a field of `width` characters, as `{:>width}` does. */
  function PadLeft(s: string, width: nat): string
    decreases width - |s|
  {
    if |s| < width then PadLeft([' '] + s, width) else s
  }

  /** Padding keeps the text at the right end and fills only with spaces up to the width. */
  lemma {:induction false} PadLeftKeepsText(s: string, width: nat)
    ensures var r := PadLeft(s, width);
      && |r| == (if |s| < width then width else |s|)
      && r[|r| - |s|..] == s
      && forall i :: 0 <= i < |r| - |s| ==> r[i] == ' '
    decreases width - |s|
  {
    if |s| < width {
      PadLeftKeepsText([' '] + s, width);
      var r := PadLeft(s, width);
      assert r[|r| - |s| - 1..] == [' '] + s;
      assert r[|r| - |s|..] == ([' '] + s)[1..];
    }
  }

  /** The label of a note, for instance " C4" for 60 and "C#4" for 61. */
  function NoteLabel(x: byte): string {
    Field(PitchClass(x)) + Decimal.IntToDecimal(Octave(x))
  }

  /** Reads a label: a two-character pitch field, then a decimal octave. */
  function ReadLabel(s: string): Option<Pitch> {
    if |s| <= FieldWidth then None
    else match (ReadField(s[..FieldWidth]), Decimal.ParseInt(s[FieldWidth..]))
      case (Some(pc), Some(o)) => Some(Pitch(pc, o))
      case _ => None
  }

  /** The note number a pitch denotes, in the program's octave numbering. */
  function NoteOf(p: Pitch): int {
    (p.octave + 1) * SignCount + p.pitchClass
  }

  /** The pitch field of a label. */
  function Field(pc: nat): string
    requires pc < SignCount
  {
    PadLeft(Signs[pc], FieldWidth)
  }

  /** Pitch-class names are one or two characters, so every field is exactly two wide. */
  lemma FieldShape(pc: nat)
    requires pc < SignCount
    ensures |Signs[pc]| == 1 ==> Field(pc) == [' ', Signs[pc][0]]
    ensures |Signs[pc]| == 2 ==> Field(pc) == Signs[pc]
    ensures |Field(pc)| == FieldWidth
  {
    assert |Signs[pc]| == 1 || |Signs[pc]| == 2;
  }

  /** The pitch class of a white key's letter. */
  function LetterClass(c: char): Option<nat> {
    if c == 'C' then Some(0)
    else if c == 'D' then Some(2)
    else if c == 'E' then Some(4)
    else if c == 'F' then Some(5)
    else if c == 'G' then Some(7)
    else if c == 'A' then Some(9)
    else if c == 'B' then Some(11)
    else None
  }

  /** Reads a two-character pitch field: " X" is a white key, "X#" the key above it. */
  function ReadField(f: string): (r: Option<nat>)
    requires |f| == FieldWidth
    ensures r.Some? ==> r.value < SignCount
  {
    if f[0] == ' ' then LetterClass(f[1])
    else if f[1] != '#' then None
    else match LetterClass(f[0])
      case Some(n) => if n == 4 || n == 11 then None else Some(n + 1)
      case None => None
  }

  /** Every field reads back as its own pitch class. */
  lemma FieldReadsBack(pc: nat)
    requires pc < SignCount
    ensures ReadField(Field(pc)) == Some(pc)
  {
    match pc
    case 0 => FieldShape(0);
    case 1 => FieldShape(1);
    case 2 => FieldShape(2);
    case 3 => FieldShape(3);
    case 4 => FieldShape(4);
    case 5 => FieldShape(5);
    case 6 => FieldShape(6);
    case 7 => FieldShape(7);
    case 8 => FieldShape(8);
    case 9 => FieldShape(9);
    case 10 => FieldShape(10);
    case _ => FieldShape(11);
  }

  /**
   * A label shows pitch class `x % 12` and octave `x / 12 - 1`, and nothing
   * else can be read from it.
   */
  lemma ReadNoteLabel(x: byte)
    ensures ReadLabel(NoteLabel(x)) == Some(Pitch(x % SignCount, x / SignCount - 1))
  {
    var field := Field(PitchClass(x));
    var text := NoteLabel(x);
    FieldShape(PitchClass(x));
    assert text[..FieldWidth] == field;
    assert text[FieldWidth..] == Decimal.IntToDecimal(Octave(x));
    FieldReadsBack(PitchClass(x));
    Decimal.ParseRendered(Octave(x));
  }

  /** The label determines the note: reading it back gives the note number. */
  lemma LabelRoundTrip(x: byte)
    ensures ReadLabel(NoteLabel(x)).Some? && NoteOf(ReadLabel(NoteLabel(x)).value) == x
  {
    ReadNoteLabel(x);
  }

  /** No two note numbers share a label. */
  lemma LabelInjective(x: byte, y: byte)
    requires NoteLabel(x) == NoteLabel(y)
    ensures x == y
  {
    LabelRoundTrip(x);
    LabelRoundTrip(y);
  }

  /** A label opens with its two-character pitch field. */
  lemma LabelStartsWithField(x: byte)
    ensures |NoteLabel(x)| > FieldWidth
    ensures NoteLabel(x)[..FieldWidth] == Field(PitchClass(x))
  {
    FieldShape(PitchClass(x));
  }

  /** Notes an octave apart have the same pitch field and adjacent octaves. */
  lemma OctaveApart(x: byte, y: byte)
    requires y == x + SignCount
    ensures |NoteLabel(x)| > FieldWidth && |NoteLabel(y)| > FieldWidth
    ensures NoteLabel(x)[..FieldWidth] == NoteLabel(y)[..FieldWidth]
    ensures Octave(y) == Octave(x) + 1
  {
    LabelStartsWithField(x);
    LabelStartsWithField(y);
    assert PitchClass(y) == PitchClass(x);
  }

  /** The white keys: C, D, E, F, G, A and B. */
  predicate IsNatural(pc: nat) {
    pc == 0 || pc == 2 || pc == 4 || pc == 5 || pc == 7 || pc == 9 || pc == 11
  }

  /**
   * A field starts with a space exactly for the white keys; the black keys
   * fill the field with the name and its '#'.
   */
  lemma FieldLead(pc: nat)
    requires pc < SignCount
    ensures |Field(pc)| == FieldWidth
    ensures Field(pc)[0] == ' ' <==> IsNatural(pc)
    ensures !IsNatural(pc) ==> Field(pc)[1] == '#'
  {
    match pc
    case 0 => FieldShape(0);
    case 1 => FieldShape(1);
    case 2 => FieldShape(2);
    case 3 => FieldShape(3);
    case 4 => FieldShape(4);
    case 5 => FieldShape(5);
    case 6 => FieldShape(6);
    case 7 => FieldShape(7);
    case 8 => FieldShape(8);
    case 9 => FieldShape(9);
    case 10 => FieldShape(10);
    case _ => FieldShape(11);
  }

  /** So a label starts with a space exactly when it names a white key. */
  lemma LeadingSpace(x: byte)
    ensures NoteLabel(x)[0] == ' ' <==> IsNatural(x % SignCount)
    ensures !IsNatural(x % SignCount) ==> NoteLabel(x)[1] == '#'
  {
    var pc := PitchClass(x);
    FieldLead(pc);
    var text := NoteLabel(x);
    assert text[..FieldWidth] == Field(pc);
  }

  /** A label is its pitch field followed by its octave. */
  lemma LabelParts(x: byte, field: string, octave: string)
    requires field == Field(x % SignCount) && octave == Decimal.IntToDecimal(x / SignCount - 1)
    ensures NoteLabel(x) == field + octave
  {
  }

  /** The lowest note, middle C and the highest MIDI key. */
  lemma SampleLabels()
    ensures NoteLabel(0) == " C-1"
    ensures NoteLabel(60) == " C4"
    ensures NoteLabel(127) == " G9"
  {
    FieldShape(0);
    FieldShape(7);
    assert Decimal.NatToDecimal(1) == "1";
    LabelParts(0, " C", "-1");
    LabelParts(60, " C", "4");
    LabelParts(127, " G", "9");
  }

  /** A black key above middle C, and the highest byte, whose octave needs two digits. */
  lemma SampleSharpLabels()
    ensures NoteLabel(61) == "C#4"
    ensures NoteLabel(255) == "D#20"
  {
    FieldShape(1);
    FieldShape(3);
    assert Decimal.NatToDecimal(2) == "2";
    LabelParts(61, "C#", "4");
    LabelParts(255, "D#", "20");
  }

}
