/** The response DTOs as static tables: each exposed field with the groups its @Expose tag names. */
module ResponseDtos {
  import opened Wrappers
  import opened Roles

  datatype Dto = CategoryResponse | ProgramResponse | EpisodeResponse

  /** One @Expose({ groups }) field; `nested` is the @Type(() => Dto) of a relation field. */
  datatype FieldSpec = FieldSpec(groups: set<Group>, nested: Option<Dto>)

  const PublicField := FieldSpec({PublicGroup}, None)
  const EditorAdminField := FieldSpec({EditorGroup, AdminGroup}, None)
  const AdminField := FieldSpec({AdminGroup}, None)

  /** How deep a DTO's relation fields nest: Category 0, Program 1, Episode 2. */
  function Depth(d: Dto): nat {
    match d
    case CategoryResponse => 0
    case ProgramResponse => 1
    case EpisodeResponse => 2
  }

  /** The fields each DTO tags @Expose({ groups: ['public'] }). */
  function TaggedPublic(d: Dto): set<string> {
    match d
    case CategoryResponse => {"id", "nameAr", "nameEn", "descriptionAr", "descriptionEn"}
    case ProgramResponse => {"id", "titleAr", "titleEn", "type", "descriptionAr", "descriptionEn", "category"}
    case EpisodeResponse =>
      {"id", "titleAr", "titleEn", "descriptionAr", "descriptionEn", "mediaUrl", "language",
       "publishedAt", "duration", "program"}
  }

  /** The fields each DTO tags @Expose({ groups: ['editor', 'admin'] }). */
  function TaggedEditorAdmin(d: Dto): set<string> {
    match d
    case CategoryResponse => {"isActive", "createdAt", "updatedAt"}
    case ProgramResponse => {}
    case EpisodeResponse => {"status"}
  }

  /** The fields each DTO tags @Expose({ groups: ['admin'] }). */
  function TaggedAdmin(d: Dto): set<string> {
    match d
    case CategoryResponse => {}
    case ProgramResponse => {"createdAt", "updatedAt"}
    case EpisodeResponse => {"createdAt", "updatedAt"}
  }

  /** The @Type(() => Dto) relation fields: a program's `category` and an episode's `program`. */
  function Relation(d: Dto, k: string): Option<Dto> {
    if d == ProgramResponse && k == "category" then Some(CategoryResponse)
    else if d == EpisodeResponse && k == "program" then Some(ProgramResponse)
    else None
  }

  /** The tag of field `k` of a DTO. A relation field always names a DTO of smaller depth, so projection terminates. */
  function Spec(d: Dto, k: string): (s: Option<FieldSpec>)
    ensures s.Some? && s.value.nested.Some? ==> Depth(s.value.nested.value) < Depth(d)
    ensures s.Some? ==> s.value.groups != {}
  {
    if k in TaggedPublic(d) then Some(FieldSpec({PublicGroup}, Relation(d, k)))
    else if k in TaggedEditorAdmin(d) then Some(EditorAdminField)
    else if k in TaggedAdmin(d) then Some(AdminField)
    else None
  }

  /** The names each DTO declares: 8, 9 and 13 of them. */
  function DeclaredFields(d: Dto): (s: set<string>)
    ensures forall k :: k in s <==> Spec(d, k).Some?
  {
    TaggedPublic(d) + TaggedEditorAdmin(d) + TaggedAdmin(d)
  }

  /** Every field carries exactly one tag. */
  lemma TagsAreDisjoint(d: Dto)
    ensures TaggedPublic(d) !! TaggedEditorAdmin(d)
    ensures TaggedPublic(d) !! TaggedAdmin(d)
    ensures TaggedEditorAdmin(d) !! TaggedAdmin(d)
  {
  }

  /** The relation fields are tagged public and every other field is a plain value. */
  lemma RelationsArePublic(d: Dto, k: string)
    ensures Relation(d, k).Some? ==> Spec(d, k) == Some(FieldSpec({PublicGroup}, Relation(d, k)))
    ensures Spec(d, k).Some? && Spec(d, k).value.nested.Some? ==> Relation(d, k).Some?
  {
  }

  /** No field of any of the three DTOs is tagged 'user'. */
  lemma NoFieldTaggedUser(d: Dto, k: string)
    requires Spec(d, k).Some?
    ensures UserGroup !in Spec(d, k).value.groups
  {
  }
}
