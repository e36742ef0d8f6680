/**
 * The form schema `TemplateParser` builds from the placeholder names: every name becomes a
 * field (label, input type, hint), and the fields are grouped into sections by a first-match
 * keyword classifier over an ordered table of groups, with a trailing "other" section for the
 * names no group claims.
 */
module Schema {
  import opened Wrappers
  import opened Strings

  datatype Field = Field(name: string, caption: string, kind: string, required: bool, hint: string)

  datatype FormSection = FormSection(name: string, title: string, fields: seq<Field>)

  datatype FormSchema = FormSchema(sections: seq<FormSection>)

  /** A keyword group: a name matches it when one of the keywords occurs in the lowered name. */
  datatype Group = Group(name: string, keywords: seq<string>)

  /** `field_groups`, in its insertion order; "other" has no keywords and is never matched. */
  const FieldGroups: seq<Group> := [
    Group("header", ["nomor", "number", "tanggal", "date", "lampiran", "attachment", "hal", "subject", "perihal"]),
    Group("recipient", ["kepada", "recipient", "yth", "alamat", "address", "kota", "location", "tempat"]),
    Group("personal", ["nama", "name", "nim", "id", "program", "student", "mahasiswa", "prodi"]),
    Group("content", ["judul", "title", "kegiatan", "activity", "penelitian", "research", "lama", "duration",
                      "waktu", "period", "lokasi", "isi"]),
    Group("signature", ["penandatangan", "signer", "nip", "jabatan", "position", "direktur", "kepala"]),
    Group("other", [])
  ]

  /** The index of the "other" group. */
  const Other: nat := 5

  // ---------------------------------------------------------------------------
  // The per-name helpers
  // ---------------------------------------------------------------------------

  /** The abbreviations `_humanize_field` spells out. */
  const Abbreviations: map<string, string> := map[
    "nim" := "NIM", "nip" := "NIP", "nama" := "Nama", "tanggal" := "Tanggal",
    "nomor" := "Nomor", "hal" := "Hal", "prodi" := "Program Studi"
  ]

  /** `_humanize_field`: a known abbreviation, or the name with `_` as spaces, title-cased. */
  function Humanize(name: string): (r: string)
    ensures Lower(name) in Abbreviations ==> r == Abbreviations[Lower(name)]
    ensures Lower(name) !in Abbreviations ==> |r| == |name|
  {
    var lower := Lower(name);
    if lower in Abbreviations then Abbreviations[lower] else Title(UnderscoresToSpaces(name))
  }

  /**
   * Outside the abbreviations the label is the name character by character: an underscore
   * becomes a space, the first character of each word is upper-cased and the others lowered.
   */
  lemma HumanizeChars(name: string, k: nat)
    requires Lower(name) !in Abbreviations && k < |name|
    ensures Humanize(name)[k] ==
      if name[k] == '_' then ' '
      else if StartsWord(name, k) then UpperChar(name[k])
      else LowerChar(name[k])
  {
    assert Humanize(name) == Title(UnderscoresToSpaces(name));
    TitleOfSpacedAt(name, k);
  }

  /** The labels of names outside the abbreviations hold no underscore. */
  lemma HumanizeNoUnderscore(name: string)
    requires Lower(name) !in Abbreviations
    ensures '_' !in Humanize(name)
  {
    forall k | 0 <= k < |name| ensures Humanize(name)[k] != '_' {
      HumanizeChars(name, k);
    }
  }

  /** The input types `_infer_field_type` can return. */
  const FieldTypes: set<string> := {"date", "email", "text", "textarea", "tel"}

  /** `_infer_field_type`: the first keyword list that hits the lowered name decides the type. */
  function InferFieldType(name: string): (r: string)
    ensures r in FieldTypes
  {
    var lower := Lower(name);
    if ContainsAny(lower, ["tanggal", "date"]) then "date"
    else if ContainsAny(lower, ["email", "surel"]) then "email"
    else if ContainsAny(lower, ["nomor", "number", "nim", "nip"]) then "text"
    else if ContainsAny(lower, ["judul", "title", "kegiatan", "activity", "deskripsi", "description"]) then "textarea"
    else if ContainsAny(lower, ["telepon", "phone", "hp"]) then "tel"
    else "text"
  }

  /** Lowering twice is lowering once. */
  lemma LowerIdempotent(s: string)
    ensures Lower(Lower(s)) == Lower(s)
  {
    assert forall i :: 0 <= i < |s| ==> Lower(Lower(s))[i] == Lower(s)[i];
  }

  /** The type depends on the name only up to case. */
  lemma InferFieldTypeIgnoresCase(name: string)
    ensures InferFieldType(Lower(name)) == InferFieldType(name)
  {
    LowerIdempotent(name);
  }

  /** The first branch wins: a date keyword decides "date" whatever else the name holds. */
  lemma DateWins(name: string)
    requires Contains(Lower(name), "tanggal") || Contains(Lower(name), "date")
    ensures InferFieldType(name) == "date"
  {
    ContainsAnyIff(Lower(name), ["tanggal", "date"]);
    if Contains(Lower(name), "tanggal") {
      assert "tanggal" in ["tanggal", "date"];
    } else {
      assert "date" in ["tanggal", "date"];
    }
  }

  /** A number keyword beats a long-text keyword: "nomor_judul" is a one-line text field. */
  lemma NumberBeatsTitle(name: string)
    requires Contains(Lower(name), "nomor") || Contains(Lower(name), "number")
    requires !ContainsAny(Lower(name), ["tanggal", "date"]) && !ContainsAny(Lower(name), ["email", "surel"])
    ensures InferFieldType(name) == "text"
  {
    ContainsAnyIff(Lower(name), ["nomor", "number", "nim", "nip"]);
    if Contains(Lower(name), "nomor") {
      assert "nomor" in ["nomor", "number", "nim", "nip"];
    } else {
      assert "number" in ["nomor", "number", "nim", "nip"];
    }
  }

  /** The titles `_translate_section_name` knows. */
  const Translations: map<string, string> := map[
    "header" := "Kop Surat", "recipient" := "Penerima", "personal" := "Data Pribadi",
    "content" := "Isi Surat", "signature" := "Penandatangan", "other" := "Lainnya"
  ]

  /** `_translate_section_name`: the fixed title, or the name title-cased. */
  function TranslateSectionName(name: string): (r: string)
    ensures name in Translations ==> r == Translations[name]
    ensures name !in Translations ==> |r| == |name|
  {
    if name in Translations then Translations[name] else Title(name)
  }

  /** Every group of the table has a fixed title. */
  lemma GroupsAreTranslated(g: nat)
    requires g < |FieldGroups|
    ensures FieldGroups[g].name in Translations
  {
  }

  /** The field `_generate_schema` builds for a name. */
  function MakeField(name: string): (f: Field)
    ensures f.name == name && f.required
    ensures f.hint == "Masukkan " + Lower(f.caption) + "..."
  {
    var caption := Humanize(name);
    Field(name, caption, InferFieldType(name), true, "Masukkan " + Lower(caption) + "...")
  }

  /** The fields for a list of names, in order. */
  function Fields(names: seq<string>): (fs: seq<Field>)
    ensures |fs| == |names|
    ensures forall i :: 0 <= i < |names| ==> fs[i] == MakeField(names[i])
  {
    seq(|names|, i requires 0 <= i < |names| => MakeField(names[i]))
  }

  function FieldNames(fs: seq<Field>): (names: seq<string>)
    ensures |names| == |fs|
    ensures forall i :: 0 <= i < |fs| ==> names[i] == fs[i].name
  {
    if fs == [] then [] else FieldNames(fs[..|fs| - 1]) + [fs[|fs| - 1].name]
  }

  lemma FieldNamesOfFields(names: seq<string>)
    ensures FieldNames(Fields(names)) == names
  {
  }

  /**
   * How a list of names becomes a list of fields: `Fields`, or any such function when only the
   * shape of the schema matters.
   */
  type Lister = seq<string> -> seq<Field>

  /** A lister that keeps the names, in order, as `Fields` does. */
  ghost predicate KeepsNames(fs: Lister)
  {
    forall names :: FieldNames(fs(names)) == names
  }

  lemma FieldsKeepsNames()
    ensures KeepsNames(Fields)
  {
    forall names ensures FieldNames(Fields(names)) == names {
      FieldNamesOfFields(names);
    }
  }

  // ---------------------------------------------------------------------------
  // The classifier, stated declaratively
  // ---------------------------------------------------------------------------

  /** Group `g` claims `name` when one of its keywords occurs in the lowered name. */
  predicate Matches(name: string, g: nat)
    requires g < |FieldGroups|
  {
    ContainsAny(Lower(name), FieldGroups[g].keywords)
  }

  /** The first group, in table order, that matches the name, if any. */
  function FirstGroup(name: string): (r: Option<nat>)
    ensures r.Some? ==> r.value < |FieldGroups| && Matches(name, r.value)
    ensures r.Some? ==> forall h :: 0 <= h < r.value ==> !Matches(name, h)
    ensures r.None? ==> forall h :: 0 <= h < |FieldGroups| ==> !Matches(name, h)
  {
    FirstGroupFrom(name, 0)
  }

  function FirstGroupFrom(name: string, g: nat): (r: Option<nat>)
    requires g <= |FieldGroups|
    ensures r.Some? ==> g <= r.value < |FieldGroups| && Matches(name, r.value)
    ensures r.Some? ==> forall h :: g <= h < r.value ==> !Matches(name, h)
    ensures r.None? ==> forall h :: g <= h < |FieldGroups| ==> !Matches(name, h)
    decreases |FieldGroups| - g
  {
    if g == |FieldGroups| then None
    else if Matches(name, g) then Some(g)
    else FirstGroupFrom(name, g + 1)
  }

  /** No name is claimed by "other": it has no keywords. */
  lemma OtherNeverMatches(name: string)
    ensures !Matches(name, Other)
    ensures FirstGroup(name) != Some(Other)
  {
  }

  /** Whether `name` is claimed by a group before `g`. */
  predicate ClaimedBefore(name: string, g: nat)
  {
    FirstGroup(name).Some? && FirstGroup(name).value < g
  }

  /**
   * A classifier: the group a name goes to, if any.  The schema is stated for any classifier and
   * used with `FirstGroup`; the facts about its shape hold whatever the classifier is.
   */
  type Classifier = string -> Option<nat>

  /** A classifier that never picks "other" or a group outside the table, as `FirstGroup`. */
  ghost predicate Proper(cls: Classifier)
  {
    forall x :: cls(x).Some? ==> cls(x).value < Other
  }

  lemma FirstGroupIsProper()
    ensures Proper(FirstGroup)
  {
    forall x | FirstGroup(x).Some? ensures FirstGroup(x).value < Other {
      OtherNeverMatches(x);
    }
  }

  /** The names group `g` gets: those the classifier sends to `g`, once each, in input order. */
  function Claimed(ps: seq<string>, g: nat, cls: Classifier): seq<string>
  {
    if ps == [] then []
    else
      var init, p := ps[..|ps| - 1], ps[|ps| - 1];
      Claimed(init, g, cls) + (if cls(p) == Some(g) && p !in init then [p] else [])
  }

  /** The names the classifier sends nowhere, in input order (a repeated name is repeated). */
  function Unclaimed(ps: seq<string>, cls: Classifier): seq<string>
  {
    if ps == [] then []
    else
      var init, p := ps[..|ps| - 1], ps[|ps| - 1];
      Unclaimed(init, cls) + (if cls(p).None? then [p] else [])
  }

  /** The section of group `g`. */
  function SectionFor(ps: seq<string>, g: nat, cls: Classifier, fs: Lister): FormSection
    requires g < |FieldGroups|
  {
    FormSection(FieldGroups[g].name, TranslateSectionName(FieldGroups[g].name), fs(Claimed(ps, g, cls)))
  }

  /** The sections of the first `n` groups, in table order, those that claim no name left out. */
  function GroupSections(ps: seq<string>, n: nat, cls: Classifier, fs: Lister): seq<FormSection>
    requires n <= |FieldGroups|
  {
    var gs := SectionGroups(ps, n, cls);
    seq(|gs|, k requires 0 <= k < |gs| => SectionFor(ps, gs[k], cls, fs))
  }

  /** One more group adds its section exactly when it claims names. */
  lemma GroupSectionsStep(ps: seq<string>, n: nat, cls: Classifier, fs: Lister)
    requires n < |FieldGroups|
    ensures GroupSections(ps, n + 1, cls, fs) == GroupSections(ps, n, cls, fs)
      + (if Claimed(ps, n, cls) == [] then [] else [SectionFor(ps, n, cls, fs)])
  {
    var gs, gs' := SectionGroups(ps, n + 1, cls), SectionGroups(ps, n, cls);
    assert gs == gs' + (if Claimed(ps, n, cls) == [] then [] else [n]);
  }

  /** The trailing "other" section, when some name is unclaimed. */
  function OtherSection(ps: seq<string>, cls: Classifier, fs: Lister): seq<FormSection>
  {
    var names := Unclaimed(ps, cls);
    if names == [] then [] else [FormSection("other", "Lainnya", fs(names))]
  }

  function SchemaWith(ps: seq<string>, cls: Classifier, fs: Lister): FormSchema
  {
    FormSchema(GroupSections(ps, |FieldGroups|, cls, fs) + OtherSection(ps, cls, fs))
  }

  /** The schema `_generate_schema` returns for `ps`. */
  function SchemaOf(ps: seq<string>): FormSchema
  {
    SchemaWith(ps, FirstGroup, Fields)
  }

  // ---------------------------------------------------------------------------
  // `_generate_schema`
  // ---------------------------------------------------------------------------

  /**
   * One group's pass over the placeholders: skip the names already used, claim the ones a
   * keyword of the group hits.
   */
  method ClaimGroup(ps: seq<string>, g: nat, usedBefore: set<string>) returns (fields: seq<Field>, used: set<string>)
    requires g < |FieldGroups|
    requires forall q :: q in usedBefore <==> q in ps && ClaimedBefore(q, g)
    ensures fields == Fields(Claimed(ps, g, FirstGroup))
    ensures forall q :: q in used <==> q in ps && ClaimedBefore(q, g + 1)
  {
    var keywords := FieldGroups[g].keywords;
    fields := [];
    used := usedBefore;
    for i := 0 to |ps|
      invariant fields == Fields(Claimed(ps[..i], g, FirstGroup))
      invariant forall q :: q in used <==> q in usedBefore || (q in ps[..i] && FirstGroup(q) == Some(g))
    {
      var p := ps[i];
      var take := p !in used && ContainsAny(Lower(p), keywords);
      ClaimStep(ps, i, g, usedBefore, used, take);
      if take {
        FieldsSnoc(Claimed(ps[..i], g, FirstGroup), p);
        fields := fields + [MakeField(p)];
        used := used + {p};
      }
    }
    assert ps[..|ps|] == ps;
  }

  /** The test the loop makes on the next name decides whether the declarative list grows. */
  lemma ClaimStep(ps: seq<string>, i: nat, g: nat, usedBefore: set<string>, used: set<string>, take: bool)
    requires i < |ps| && g < |FieldGroups|
    requires forall q :: q in usedBefore <==> q in ps && ClaimedBefore(q, g)
    requires forall q :: q in used <==> q in usedBefore || (q in ps[..i] && FirstGroup(q) == Some(g))
    requires take == (ps[i] !in used && ContainsAny(Lower(ps[i]), FieldGroups[g].keywords))
    ensures Claimed(ps[..i + 1], g, FirstGroup) == Claimed(ps[..i], g, FirstGroup) + (if take then [ps[i]] else [])
    ensures var after := if take then used + {ps[i]} else used;
      forall q :: q in after <==> q in usedBefore || (q in ps[..i + 1] && FirstGroup(q) == Some(g))
  {
    var p := ps[i];
    assert p in ps;
    assert ps[..i + 1] == ps[..i] + [p];
    assert ps[..i + 1][..i] == ps[..i];
    assert take <==> FirstGroup(p) == Some(g) && p !in ps[..i];
    var after := if take then used + {p} else used;
    forall q ensures q in after <==> q in usedBefore || (q in ps[..i + 1] && FirstGroup(q) == Some(g)) {
      assert q in ps[..i + 1] <==> q in ps[..i] || q == p;
    }
  }

  lemma FieldsSnoc(names: seq<string>, name: string)
    ensures Fields(names + [name]) == Fields(names) + [MakeField(name)]
  {
    assert (names + [name])[..|names|] == names;
  }

  /** `_generate_schema`. */
  method GenerateSchema(ps: seq<string>) returns (schema: FormSchema)
    ensures schema == SchemaOf(ps)
  {
    var sections, used := GroupPasses(ps);
    var others := OtherFields(ps, used);
    if others != [] {
      sections := sections + [FormSection("other", "Lainnya", others)];
    }
    schema := FormSchema(sections);
  }

  /**
   * The first pass of `_generate_schema`: the groups in table order, "other" skipped, each
   * claiming the names not yet used that one of its keywords hits.
   */
  method GroupPasses(ps: seq<string>) returns (sections: seq<FormSection>, used: set<string>)
    ensures sections == GroupSections(ps, |FieldGroups|, FirstGroup, Fields)
    ensures forall q :: q in used <==> q in ps && ClaimedBefore(q, |FieldGroups|)
  {
    sections := [];
    used := {};
    for g := 0 to |FieldGroups|
      invariant sections == GroupSections(ps, g, FirstGroup, Fields)
      invariant forall q :: q in used <==> q in ps && ClaimedBefore(q, g)
    {
      var group := FieldGroups[g];
      if group.name == "other" {
        NothingClaimed(ps, g);
        GroupStep(ps, g, []);
      } else {
        var fields;
        fields, used := ClaimGroup(ps, g, used);
        GroupStep(ps, g, fields);
        if fields != [] {
          sections := sections + [FormSection(group.name, TranslateSectionName(group.name), fields)];
        }
      }
    }
  }

  /** One more group adds its section exactly when it has fields. */
  lemma GroupStep(ps: seq<string>, g: nat, fields: seq<Field>)
    requires g < |FieldGroups| && fields == Fields(Claimed(ps, g, FirstGroup))
    ensures GroupSections(ps, g + 1, FirstGroup, Fields) == GroupSections(ps, g, FirstGroup, Fields)
      + (if fields == [] then [] else [FormSection(FieldGroups[g].name, TranslateSectionName(FieldGroups[g].name), fields)])
  {
    GroupSectionsStep(ps, g, FirstGroup, Fields);
  }

  /** The second pass of `_generate_schema`: a field for every name left out of `used`. */
  method OtherFields(ps: seq<string>, used: set<string>) returns (others: seq<Field>)
    requires forall q :: q in used <==> q in ps && ClaimedBefore(q, |FieldGroups|)
    ensures others == Fields(Unclaimed(ps, FirstGroup))
  {
    others := [];
    for i := 0 to |ps|
      invariant others == Fields(Unclaimed(ps[..i], FirstGroup))
    {
      var p := ps[i];
      UnclaimedStep(ps, i, used);
      if p !in used {
        FieldsSnoc(Unclaimed(ps[..i], FirstGroup), p);
        others := others + [MakeField(p)];
      }
    }
    assert ps[..|ps|] == ps;
  }

  /** The test the second pass makes on the next name decides whether the declarative list grows. */
  lemma UnclaimedStep(ps: seq<string>, i: nat, used: set<string>)
    requires i < |ps|
    requires forall q :: q in used <==> q in ps && ClaimedBefore(q, |FieldGroups|)
    ensures Unclaimed(ps[..i + 1], FirstGroup) == Unclaimed(ps[..i], FirstGroup) + (if ps[i] in used then [] else [ps[i]])
  {
    assert ps[..i + 1][..i] == ps[..i];
    assert ps[i] in ps;
  }

  /** The group the source skips by name gets nothing. */
  lemma NothingClaimed(ps: seq<string>, g: nat)
    requires g < |FieldGroups| && FieldGroups[g].name == "other"
    ensures Claimed(ps, g, FirstGroup) == []
    ensures forall p :: ClaimedBefore(p, g + 1) <==> ClaimedBefore(p, g)
  {
    assert g == Other;
    FirstGroupIsProper();
    ClaimedNone(ps, FirstGroup);
  }

  /** A proper classifier sends nothing to "other". */
  lemma {:induction false} ClaimedNone(ps: seq<string>, cls: Classifier)
    requires Proper(cls)
    ensures Claimed(ps, Other, cls) == []
  {
    if ps != [] {
      ClaimedNone(ps[..|ps| - 1], cls);
    }
  }

  // ---------------------------------------------------------------------------
  // What the schema promises
  // ---------------------------------------------------------------------------

  /** The position of a section name in the group table; a name not in it ranks with "other". */
  function Rank(sectionName: string): nat
  {
    RankFrom(sectionName, 0)
  }

  function RankFrom(sectionName: string, g: nat): nat
    requires g <= |FieldGroups|
    decreases |FieldGroups| - g
  {
    if g == |FieldGroups| then Other
    else if FieldGroups[g].name == sectionName then g
    else RankFrom(sectionName, g + 1)
  }

  lemma RankOfGroup(g: nat)
    requires g < |FieldGroups|
    ensures Rank(FieldGroups[g].name) == g
  {
    if g == 0 { assert Rank("header") == 0; }
    else if g == 1 { assert Rank("recipient") == 1; }
    else if g == 2 { assert Rank("personal") == 2; }
    else if g == 3 { assert Rank("content") == 3; }
    else if g == 4 { assert Rank("signature") == 4; }
    else { assert Rank("other") == 5; }
  }

  /** The group a name lands in: the one the classifier picks, or "other". */
  function GroupOf(name: string, cls: Classifier): (g: nat)
    requires Proper(cls)
    ensures g < |FieldGroups|
  {
    match cls(name)
    case Some(h) => h
    case None => Other
  }

  /** The name of the section that holds `name`. */
  function SectionName(name: string, cls: Classifier): string
    requires Proper(cls)
  {
    FieldGroups[GroupOf(name, cls)].name
  }

  /** A group gets a name exactly when the name is an input the classifier sends to it. */
  lemma {:induction false} ClaimedMembers(ps: seq<string>, g: nat, cls: Classifier, x: string)
    ensures x in Claimed(ps, g, cls) <==> x in ps && cls(x) == Some(g)
  {
    if ps != [] {
      var init := ps[..|ps| - 1];
      ClaimedMembers(init, g, cls, x);
      assert ps == init + [ps[|ps| - 1]];
    }
  }

  /** "Other" gets a name exactly when the name is an input the classifier sends nowhere. */
  lemma {:induction false} UnclaimedMembers(ps: seq<string>, cls: Classifier, x: string)
    ensures x in Unclaimed(ps, cls) <==> x in ps && cls(x).None?
  {
    if ps != [] {
      var init := ps[..|ps| - 1];
      UnclaimedMembers(init, cls, x);
      assert ps == init + [ps[|ps| - 1]];
    }
  }

  /** The groups below `n` that claim some name, in table order: the groups that get a section. */
  function SectionGroups(ps: seq<string>, n: nat, cls: Classifier): (gs: seq<nat>)
    requires n <= |FieldGroups|
    ensures forall k :: 0 <= k < |gs| ==> gs[k] < n && Claimed(ps, gs[k], cls) != []
  {
    if n == 0 then [] else SectionGroups(ps, n - 1, cls) + (if Claimed(ps, n - 1, cls) == [] then [] else [n - 1])
  }

  /** The groups with a section come in increasing order. */
  lemma {:induction false} SectionGroupsIncreasing(ps: seq<string>, n: nat, cls: Classifier)
    requires n <= |FieldGroups|
    ensures forall i, j :: 0 <= i < j < |SectionGroups(ps, n, cls)| ==>
      SectionGroups(ps, n, cls)[i] < SectionGroups(ps, n, cls)[j]
  {
    if n > 0 {
      SectionGroupsIncreasing(ps, n - 1, cls);
      var gs, gs' := SectionGroups(ps, n, cls), SectionGroups(ps, n - 1, cls);
      assert gs == gs' + (if Claimed(ps, n - 1, cls) == [] then [] else [n - 1]);
      forall i, j | 0 <= i < j < |gs| ensures gs[i] < gs[j] {
        assert gs[i] == gs'[i] && gs'[i] < n - 1;
        if j < |gs'| {
          assert gs[j] == gs'[j] && gs'[i] < gs'[j];
        } else {
          assert gs[j] == n - 1;
        }
      }
    }
  }

  /** The sections of the groups below `n - 1` come first among those below `n`. */
  lemma SectionGroupsPrefix(ps: seq<string>, n: nat, cls: Classifier)
    requires 0 < n <= |FieldGroups|
    ensures SectionGroups(ps, n - 1, cls) <= SectionGroups(ps, n, cls)
  {
  }

  /** Every group below `n` that claims a name has a section. */
  lemma {:induction false} SectionGroupsComplete(ps: seq<string>, n: nat, g: nat, cls: Classifier) returns (k: nat)
    requires g < n <= |FieldGroups| && Claimed(ps, g, cls) != []
    ensures k < |SectionGroups(ps, n, cls)| && SectionGroups(ps, n, cls)[k] == g
  {
    var gs' := SectionGroups(ps, n - 1, cls);
    if g < n - 1 {
      k := SectionGroupsComplete(ps, n - 1, g, cls);
      SectionGroupsPrefix(ps, n, cls);
    } else {
      k := |gs'|;
      assert SectionGroups(ps, n, cls) == gs' + [g];
    }
  }

  /** The schema: the sections of the groups that claim names, then "other" when names are left. */
  lemma SchemaSections(ps: seq<string>, cls: Classifier, fs: Lister)
    requires Proper(cls)
    ensures var ss, gs := SchemaWith(ps, cls, fs).sections, SectionGroups(ps, |FieldGroups|, cls);
      && |gs| <= |ss|
      && (forall k :: 0 <= k < |gs| ==> ss[k] == SectionFor(ps, gs[k], cls, fs) && gs[k] < Other)
      && (Unclaimed(ps, cls) == [] ==> |ss| == |gs|)
      && (Unclaimed(ps, cls) != [] ==>
            |ss| == |gs| + 1 && ss[|gs|] == FormSection("other", "Lainnya", fs(Unclaimed(ps, cls))))
  {
    var ss, gs := SchemaWith(ps, cls, fs).sections, SectionGroups(ps, |FieldGroups|, cls);
    var groups := GroupSections(ps, |FieldGroups|, cls, fs);
    ClaimedNone(ps, cls);
    assert ss == groups + OtherSection(ps, cls, fs);
    forall k | 0 <= k < |gs| ensures ss[k] == SectionFor(ps, gs[k], cls, fs) && gs[k] < Other {
      assert ss[k] == groups[k];
    }
  }

  /**
   * The schema partitions its input: a name is a field of a section exactly when it is an input
   * and the section is the one of its group (or "other"), and every input has that section.
   */
  lemma PartitionWith(ps: seq<string>, cls: Classifier, fs: Lister, x: string)
    requires Proper(cls) && KeepsNames(fs)
    ensures var ss := SchemaWith(ps, cls, fs).sections;
      forall k :: 0 <= k < |ss| ==> (x in FieldNames(ss[k].fields) <==> x in ps && ss[k].name == SectionName(x, cls))
    ensures var ss := SchemaWith(ps, cls, fs).sections;
      x in ps ==> exists k :: 0 <= k < |ss| && ss[k].name == SectionName(x, cls)
  {
    var ss, gs := SchemaWith(ps, cls, fs).sections, SectionGroups(ps, |FieldGroups|, cls);
    SchemaSections(ps, cls, fs);
    forall k | 0 <= k < |ss| ensures x in FieldNames(ss[k].fields) <==> x in ps && ss[k].name == SectionName(x, cls) {
      if k < |gs| {
        var g := gs[k];
        assert FieldNames(fs(Claimed(ps, g, cls))) == Claimed(ps, g, cls);
        ClaimedMembers(ps, g, cls, x);
        GroupNamesDistinct(g, GroupOf(x, cls));
      } else {
        assert FieldNames(fs(Unclaimed(ps, cls))) == Unclaimed(ps, cls);
        UnclaimedMembers(ps, cls, x);
        GroupNamesDistinct(Other, GroupOf(x, cls));
      }
    }
    if x in ps {
      match cls(x)
      case Some(g) =>
        ClaimedMembers(ps, g, cls, x);
        var k := SectionGroupsComplete(ps, |FieldGroups|, g, cls);
        assert ss[k].name == SectionName(x, cls);
      case None =>
        UnclaimedMembers(ps, cls, x);
        assert ss[|gs|].name == SectionName(x, cls);
    }
  }

  /** The groups of the table have pairwise different names. */
  lemma GroupNamesDistinct(g: nat, h: nat)
    requires g < |FieldGroups| && h < |FieldGroups|
    ensures FieldGroups[g].name == FieldGroups[h].name <==> g == h
  {
    RankOfGroup(g);
    RankOfGroup(h);
  }

  /** The sections come in table order, "other" last, so no two share a name. */
  lemma SectionsInOrderWith(ps: seq<string>, cls: Classifier, fs: Lister)
    requires Proper(cls)
    ensures var ss := SchemaWith(ps, cls, fs).sections;
      forall i, j :: 0 <= i < j < |ss| ==> Rank(ss[i].name) < Rank(ss[j].name)
  {
    var ss, gs := SchemaWith(ps, cls, fs).sections, SectionGroups(ps, |FieldGroups|, cls);
    SchemaSections(ps, cls, fs);
    SectionGroupsIncreasing(ps, |FieldGroups|, cls);
    forall k | 0 <= k < |ss| ensures Rank(ss[k].name) == if k < |gs| then gs[k] else Other {
      if k < |gs| {
        RankOfGroup(gs[k]);
      } else {
        RankOfGroup(Other);
      }
    }
  }

  /** No section is empty, and each holds the fields of its names. */
  lemma SectionsAndFieldsWith(ps: seq<string>, cls: Classifier, fs: Lister)
    requires Proper(cls) && KeepsNames(fs)
    ensures forall s :: s in SchemaWith(ps, cls, fs).sections ==>
      FieldNames(s.fields) != [] && s.fields == fs(FieldNames(s.fields))
  {
    var ss, gs := SchemaWith(ps, cls, fs).sections, SectionGroups(ps, |FieldGroups|, cls);
    SchemaSections(ps, cls, fs);
    forall s | s in ss ensures FieldNames(s.fields) != [] && s.fields == fs(FieldNames(s.fields)) {
      var k :| 0 <= k < |ss| && ss[k] == s;
      if k < |gs| {
        assert FieldNames(fs(Claimed(ps, gs[k], cls))) == Claimed(ps, gs[k], cls);
      } else {
        assert FieldNames(fs(Unclaimed(ps, cls))) == Unclaimed(ps, cls);
      }
    }
  }

  /**
   * `_generate_schema` partitions its input: every input name is a field of exactly one section,
   * the one of its first matching group, or "other" when no group matches; no other name is.
   */
  lemma Partition(ps: seq<string>, x: string)
    ensures Proper(FirstGroup)
    ensures var ss := SchemaOf(ps).sections;
      forall k :: 0 <= k < |ss| ==>
        (x in FieldNames(ss[k].fields) <==> x in ps && ss[k].name == SectionName(x, FirstGroup))
    ensures var ss := SchemaOf(ps).sections;
      x in ps ==> exists k :: 0 <= k < |ss| && ss[k].name == SectionName(x, FirstGroup)
  {
    FirstGroupIsProper();
    FieldsKeepsNames();
    PartitionWith(ps, FirstGroup, Fields, x);
  }

  /** The section a name lands in is its first matching group's, or "other" when none matches. */
  lemma SectionNameIsFirstMatch(x: string)
    ensures Proper(FirstGroup)
    ensures var g := GroupOf(x, FirstGroup);
      && SectionName(x, FirstGroup) == FieldGroups[g].name
      && (g < Other ==> Matches(x, g) && forall h :: 0 <= h < g ==> !Matches(x, h))
      && (g == Other ==> forall h :: 0 <= h < |FieldGroups| ==> !Matches(x, h))
  {
    FirstGroupIsProper();
  }

  /** The sections of `_generate_schema` come in table order, "other" last; no two share a name. */
  lemma SectionsInOrder(ps: seq<string>)
    ensures var ss := SchemaOf(ps).sections;
      forall i, j :: 0 <= i < j < |ss| ==> Rank(ss[i].name) < Rank(ss[j].name)
  {
    FirstGroupIsProper();
    SectionsInOrderWith(ps, FirstGroup, Fields);
  }

  /** No section is empty, and every field is required, with the hint built from its label. */
  lemma SectionsAndFields(ps: seq<string>)
    ensures forall s :: s in SchemaOf(ps).sections ==> s.fields != []
    ensures forall s, f :: s in SchemaOf(ps).sections && f in s.fields ==>
      && f == MakeField(f.name)
      && f.required
      && f.hint == "Masukkan " + Lower(f.caption) + "..."
  {
    FirstGroupIsProper();
    FieldsKeepsNames();
    SectionsAndFieldsWith(ps, FirstGroup, Fields);
    forall s, f | s in SchemaOf(ps).sections && f in s.fields ensures f == MakeField(f.name) {
      var i :| 0 <= i < |s.fields| && s.fields[i] == f;
    }
  }
}
