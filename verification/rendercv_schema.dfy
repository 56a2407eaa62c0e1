/**
 * The one rule the thin RenderCV schema enforces on its own: every section
 * of the CV holds entries of a single type. Entries are classified by
 * their variant, and a section whose entries disagree with its first entry
 * is rejected with a message naming the first disagreement.
 */
module RenderCvSchema {

  import opened Wrappers
  import opened Text

  /**
   * A section entry. A plain string is a text entry; the other variants
   * carry the fields RenderCV requires of them. `Unrecognised` stands for
   * a value of none of these types, which the classifier still accepts.
   */
  datatype Entry =
    | TextEntry(text: string)
    | EducationEntry(institution: string, area: string, degree: Option<string>)
    | ExperienceEntry(company: string, position: string)
    | NormalEntry(name: string)
    | PublicationEntry(title: string, authors: seq<string>)
    | OneLineEntry(entryLabel: string, details: string)
    | BulletEntry(bullet: string)
    | NumberedEntry(number: string)
    | ReversedNumberedEntry(reversedNumber: string)
    | Unrecognised

  /** A titled section, in the order the sections mapping lists them. */
  type Section = (string, seq<Entry>)

  /** The labels the classifier can return. */
  const EntryTypeNames: set<string> := {
    "TextEntry", "EducationEntry", "ExperienceEntry", "PublicationEntry", "OneLineEntry",
    "BulletEntry", "NumberedEntry", "ReversedNumberedEntry", "NormalEntry", "Unknown"}

  /** Two entries are of the same variant. */
  predicate SameKind(a: Entry, b: Entry) {
    && a.TextEntry? == b.TextEntry?
    && a.EducationEntry? == b.EducationEntry?
    && a.ExperienceEntry? == b.ExperienceEntry?
    && a.NormalEntry? == b.NormalEntry?
    && a.PublicationEntry? == b.PublicationEntry?
    && a.OneLineEntry? == b.OneLineEntry?
    && a.BulletEntry? == b.BulletEntry?
    && a.NumberedEntry? == b.NumberedEntry?
    && a.ReversedNumberedEntry? == b.ReversedNumberedEntry?
    && a.Unrecognised? == b.Unrecognised?
  }

  /** The type of an entry, as the classifier tells the types apart. */
  datatype EntryKind =
    | TextKind | EducationKind | ExperienceKind | PublicationKind | OneLineKind
    | BulletKind | NumberedKind | ReversedNumberedKind | NormalKind | UnknownKind

  /** The kind of an entry, in the order the classifier checks the types. */
  function KindOf(e: Entry): EntryKind {
    match e
    case TextEntry(_) => TextKind
    case EducationEntry(_, _, _) => EducationKind
    case ExperienceEntry(_, _) => ExperienceKind
    case PublicationEntry(_, _) => PublicationKind
    case OneLineEntry(_, _) => OneLineKind
    case BulletEntry(_) => BulletKind
    case NumberedEntry(_) => NumberedKind
    case ReversedNumberedEntry(_) => ReversedNumberedKind
    case NormalEntry(_) => NormalKind
    case Unrecognised => UnknownKind
  }

  /** The label the classifier returns for each kind. */
  function KindLabel(k: EntryKind): string {
    match k
    case TextKind => "TextEntry"
    case EducationKind => "EducationEntry"
    case ExperienceKind => "ExperienceEntry"
    case PublicationKind => "PublicationEntry"
    case OneLineKind => "OneLineEntry"
    case BulletKind => "BulletEntry"
    case NumberedKind => "NumberedEntry"
    case ReversedNumberedKind => "ReversedNumberedEntry"
    case NormalKind => "NormalEntry"
    case UnknownKind => "Unknown"
  }

  /** `_classify_entry`: a stable label for the entry's type; defined for every entry. */
  function Classify(e: Entry): string {
    KindLabel(KindOf(e))
  }

  /** Distinct kinds have distinct labels. */
  lemma KindLabelInjective(k1: EntryKind, k2: EntryKind)
    ensures KindLabel(k1) == KindLabel(k2) <==> k1 == k2
  {
  }

  /**
   * Classification is total and says what the entry is: every entry gets
   * one of the known labels, plain strings are text entries, and only a
   * value of no known type is "Unknown".
   */
  lemma ClassifyLabels(e: Entry)
    ensures Classify(e) in EntryTypeNames
    ensures Classify(e) == "TextEntry" <==> e.TextEntry?
    ensures Classify(e) == "Unknown" <==> e.Unrecognised?
  {
  }

  /** Each variant has a label of its own: two entries share a label iff they share a variant. */
  lemma ClassifySeparatesKinds(a: Entry, b: Entry)
    ensures Classify(a) == Classify(b) <==> SameKind(a, b)
  {
    KindLabelInjective(KindOf(a), KindOf(b));
  }

  /** Every entry of the section has the type of its first entry; an empty section qualifies. */
  predicate Uniform(entries: seq<Entry>) {
    forall i :: 0 <= i < |entries| ==> KindOf(entries[i]) == KindOf(entries[0])
  }

  /** Uniformity is the source's test: every entry has the first entry's label. */
  lemma UniformByLabels(entries: seq<Entry>)
    ensures Uniform(entries) <==> forall i :: 0 <= i < |entries| ==> Classify(entries[i]) == Classify(entries[0])
  {
    forall i | 0 <= i < |entries| {
      KindLabelInjective(KindOf(entries[i]), KindOf(entries[0]));
    }
  }

  /** The rejection message; `position` is the 1-based position of the offending entry. */
  function MixMessage(title: string, first: string, position: nat, found: string): string {
    "Section '" + title + "' mixes entry types: first is " + first
    + ", but entry #" + NatToString(position) + " is " + found + "."
  }

  /**
   * Entry `j` of section `k` is the first disagreement: every earlier
   * section is uniform, and entry `j` is the first entry of section `k`
   * whose type differs from that of its first entry.
   */
  predicate FirstMixAt(sections: seq<Section>, k: int, j: int) {
    && 0 <= k < |sections|
    && 1 <= j < |sections[k].1|
    && (forall m :: 0 <= m < k ==> Uniform(sections[m].1))
    && (forall i :: 0 <= i < j ==> KindOf(sections[k].1[i]) == KindOf(sections[k].1[0]))
    && KindOf(sections[k].1[j]) != KindOf(sections[k].1[0])
  }

  /** There is at most one first disagreement. */
  lemma FirstMixUnique(sections: seq<Section>, k1: int, j1: int, k2: int, j2: int)
    requires FirstMixAt(sections, k1, j1) && FirstMixAt(sections, k2, j2)
    ensures k1 == k2 && j1 == j2
  {
    MixBreaksUniform(sections, k1, j1);
    MixBreaksUniform(sections, k2, j2);
  }

  /** The section of a disagreement is not uniform. */
  lemma MixBreaksUniform(sections: seq<Section>, k: int, j: int)
    requires FirstMixAt(sections, k, j)
    ensures !Uniform(sections[k].1)
  {
    assert KindOf(sections[k].1[j]) != KindOf(sections[k].1[0]);
  }

  /** A first disagreement makes the sections as a whole non-uniform. */
  lemma MixReported(sections: seq<Section>, k: int, j: int)
    requires FirstMixAt(sections, k, j)
    ensures !(forall m :: 0 <= m < |sections| ==> Uniform(sections[m].1))
  {
    MixBreaksUniform(sections, k, j);
  }

  /**
   * `_enforce_one_type_per_section`: the sections come back unchanged iff
   * every section is uniform; otherwise the error describes the first
   * disagreement, naming the section, the first entry's type and the
   * position and type of the offending entry.
   */
  method EnforceOneTypePerSection(sections: seq<Section>) returns (r: Result<seq<Section>, string>)
    ensures r.Success? <==> forall k :: 0 <= k < |sections| ==> Uniform(sections[k].1)
    ensures r.Success? ==> r.value == sections
    ensures r.Failure? ==> exists k, j :: (FirstMixAt(sections, k, j) &&
      r.error == MixMessage(sections[k].0, Classify(sections[k].1[0]), j + 1, Classify(sections[k].1[j])))
  {
    var k := 0;
    while k < |sections|
      invariant 0 <= k <= |sections|
      invariant forall m :: 0 <= m < k ==> Uniform(sections[m].1)
    {
      var mismatch := FirstMismatch(sections[k].1);
      if mismatch.Some? {
        var j := mismatch.value;
        assert FirstMixAt(sections, k, j);
        MixReported(sections, k, j);
        return Failure(MixMessage(sections[k].0, Classify(sections[k].1[0]), j + 1, Classify(sections[k].1[j])));
      }
      assert Uniform(sections[k].1);
      k := k + 1;
    }
    return Success(sections);
  }

  /**
   * The inner loop: the position of the first entry whose type differs
   * from the first entry's, if there is one. An empty section has none.
   */
  method FirstMismatch(entries: seq<Entry>) returns (r: Option<nat>)
    ensures r.None? <==> Uniform(entries)
    ensures r.Some? ==> 1 <= r.value < |entries|
    ensures r.Some? ==> KindOf(entries[r.value]) != KindOf(entries[0])
    ensures r.Some? ==> forall i :: 0 <= i < r.value ==> KindOf(entries[i]) == KindOf(entries[0])
  {
    if entries == [] {
      return None;
    }
    var first := Classify(entries[0]);
    var j := 1;
    while j < |entries|
      invariant 1 <= j <= |entries|
      invariant forall i :: 0 <= i < j ==> KindOf(entries[i]) == KindOf(entries[0])
    {
      var t := Classify(entries[j]);
      KindLabelInjective(KindOf(entries[j]), KindOf(entries[0]));
      if t != first {
        return Some(j);
      }
      j := j + 1;
    }
    return None;
  }
}
