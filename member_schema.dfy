/** The `member` document schema of the CMS: its slug option, its field rules and
    the subtitle the editor's document list shows. */
module MemberSchema {
  import opened Common
  import opened SchemaRules
  import SanityClient

  const MemberSlugOptions := SlugOptions("name", 96)

  /** The member slug generator, the same `slugify` as the game schema's, keeps within
      the configured cap, has no whitespace or capital letter and is idempotent. */
  lemma MemberSlugProperties(name: string)
    ensures Utf16Length(Slugify(name)) <= MemberSlugOptions.maxLength
    ensures NoWhitespace(Slugify(name)) && NoUpper(Slugify(name))
    ensures Slugify(Slugify(name)) == Slugify(name)
  {
    SlugifyIdempotent(name);
  }

  /** The `fields` list with each field's `validation` chain, in schema order. */
  const MemberFields: seq<FieldSpec> := [
    FieldSpec("name", [Required, MaxLength(100)]),
    FieldSpec("slug", [Required]),
    FieldSpec("avatar", [Required]),
    FieldSpec("linkedinUrl", []),
    FieldSpec("githubUrl", []),
    FieldSpec("bio", []),
    FieldSpec("skills", []),
    FieldSpec("favoriteGame", [])
  ]

  /** A member document is valid exactly when it has a name of at most 100 characters,
      a slug and an avatar. */
  lemma ValidMemberIff(doc: Document)
    ensures DocumentValid(MemberFields, doc) <==>
      && Present(doc, "name") && TextWithin(doc, "name", 100)
      && Present(doc, "slug")
      && Present(doc, "avatar")
  {
    if DocumentValid(MemberFields, doc) {
      assert FieldValid(doc, MemberFields[0]) && FieldValid(doc, MemberFields[1]) && FieldValid(doc, MemberFields[2]);
      assert Satisfies(ValueOf(doc, "name"), MemberFields[0].rules[0]);
      assert Satisfies(ValueOf(doc, "name"), MemberFields[0].rules[1]);
      assert Satisfies(ValueOf(doc, "slug"), MemberFields[1].rules[0]);
      assert Satisfies(ValueOf(doc, "avatar"), MemberFields[2].rules[0]);
    }
  }

  /** The social URLs, the bio, the skills and the favourite game are all optional:
      no value of any of them changes whether a member document is valid. */
  lemma OptionalMemberFields(doc: Document, field: string, v: FieldValue)
    requires field in {"linkedinUrl", "githubUrl", "bio", "skills", "favoriteGame"}
    ensures DocumentValid(MemberFields, doc[field := v]) <==> DocumentValid(MemberFields, doc)
  {
    forall i | 0 <= i < |MemberFields| && MemberFields[i].name == field
      ensures MemberFields[i].rules == []
    {
      assert i >= 3;
    }
    UnruledFieldIrrelevant(MemberFields, doc, field, v);
  }

  /** The preview subtitle: the member's page path when the slug is set, else "". */
  function PreviewSubtitle(slug: Option<string>): (r: string)
    ensures r == "" <==> !Truthy(slug)
    ensures Truthy(slug) ==> "/team/" <= r && r[|"/team/"|..] == slug.value
  {
    if Truthy(slug) then "/team/" + slug.value else ""
  }

  /** The editor's preview shows the same path the site serves the member at: the
      normalised slug under `/team/`, or nothing when the member has no slug. */
  lemma PreviewMatchesSitePath(m: SanityClient.SanityMember, index: nat, urlFor: SanityClient.ImageUrl)
    ensures var n := SanityClient.NormalizeMember(m, index, urlFor);
      PreviewSubtitle(m.slug) == if n.slug == "" then "" else "/team/" + n.slug
  {
  }
}
