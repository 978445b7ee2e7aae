/** What the role-scoped projection promises: which fields each role sees, monotonicity and idempotence. */
module SerializerProperties {
  import opened Wrappers
  import opened Roles
  import opened PlainValues
  import opened ResponseDtos
  import opened RoleSerializer

  /** Which fields each group list exposes, without reference to the list. */
  lemma VisibleInClosedForm(spec: FieldSpec)
    ensures Visible(spec, AnonymousGroups) <==> PublicGroup in spec.groups
    ensures Visible(spec, RoleGroups(Viewer)) <==> PublicGroup in spec.groups || UserGroup in spec.groups
    ensures Visible(spec, RoleGroups(Editor)) <==>
              PublicGroup in spec.groups || UserGroup in spec.groups || EditorGroup in spec.groups
    ensures Visible(spec, RoleGroups(Admin)) <==> spec.groups != {}
  {
    if spec.groups != {} {
      var g :| g in spec.groups;
      assert g.PublicGroup? || g.UserGroup? || g.EditorGroup? || g.AdminGroup?;
    }
  }

  /** Per DTO: guests and VIEWER see the public fields, EDITOR adds the editor/admin ones, ADMIN sees every field. */
  lemma VisibleFieldsByTag(d: Dto)
    ensures VisibleFields(d, AnonymousGroups) == TaggedPublic(d)
    ensures VisibleFields(d, RoleGroups(Viewer)) == TaggedPublic(d)
    ensures VisibleFields(d, RoleGroups(Editor)) == TaggedPublic(d) + TaggedEditorAdmin(d)
    ensures VisibleFields(d, RoleGroups(Admin)) == DeclaredFields(d)
  {
    forall k | Spec(d, k).Some?
      ensures Visible(Spec(d, k).value, AnonymousGroups) <==> k in TaggedPublic(d)
      ensures Visible(Spec(d, k).value, RoleGroups(Viewer)) <==> k in TaggedPublic(d)
      ensures Visible(Spec(d, k).value, RoleGroups(Editor)) <==> k in TaggedPublic(d) || k in TaggedEditorAdmin(d)
      ensures Visible(Spec(d, k).value, RoleGroups(Admin))
    {
      VisibleInClosedForm(Spec(d, k).value);
    }
  }

  /** A VIEWER is exposed exactly the fields a guest is exposed, in every DTO: no field is tagged 'user'. */
  lemma ViewerExposureIsGuestExposure(d: Dto)
    ensures VisibleFields(d, RoleGroups(Viewer)) == VisibleFields(d, AnonymousGroups)
  {
    VisibleFieldsByTag(d);
  }

  /** Category: guests see the names and descriptions only; EDITOR and ADMIN see all eight fields. */
  lemma CategoryFieldsByRole()
    ensures VisibleFields(CategoryResponse, AnonymousGroups) == {"id", "nameAr", "nameEn", "descriptionAr", "descriptionEn"}
    ensures VisibleFields(CategoryResponse, RoleGroups(Editor)) == DeclaredFields(CategoryResponse)
    ensures VisibleFields(CategoryResponse, RoleGroups(Admin)) == DeclaredFields(CategoryResponse)
  {
    VisibleFieldsByTag(CategoryResponse);
  }

  /** Category: isActive and the timestamps are exposed exactly when 'editor' or 'admin' is requested. */
  lemma CategoryStaffFields(groups: seq<Group>, k: string)
    requires k in TaggedEditorAdmin(CategoryResponse)
    ensures k in VisibleFields(CategoryResponse, groups) <==> EditorGroup in groups || AdminGroup in groups
  {
    assert k !in TaggedPublic(CategoryResponse);
  }

  /** Program: guests, VIEWER and EDITOR see seven fields including `category`; the timestamps are ADMIN's only. */
  lemma ProgramFieldsByRole()
    ensures VisibleFields(ProgramResponse, AnonymousGroups) ==
              {"id", "titleAr", "titleEn", "type", "descriptionAr", "descriptionEn", "category"}
    ensures VisibleFields(ProgramResponse, RoleGroups(Editor)) == VisibleFields(ProgramResponse, AnonymousGroups)
    ensures VisibleFields(ProgramResponse, RoleGroups(Admin)) == VisibleFields(ProgramResponse, AnonymousGroups) + {"createdAt", "updatedAt"}
  {
    VisibleFieldsByTag(ProgramResponse);
  }

  /** Episode: guests see ten fields, EDITOR adds `status`, ADMIN adds the timestamps as well. */
  lemma EpisodeFieldsByRole()
    ensures VisibleFields(EpisodeResponse, AnonymousGroups) ==
              {"id", "titleAr", "titleEn", "descriptionAr", "descriptionEn", "mediaUrl", "language",
               "publishedAt", "duration", "program"}
    ensures VisibleFields(EpisodeResponse, RoleGroups(Editor)) == VisibleFields(EpisodeResponse, AnonymousGroups) + {"status"}
    ensures VisibleFields(EpisodeResponse, RoleGroups(Admin)) ==
              VisibleFields(EpisodeResponse, AnonymousGroups) + {"status", "createdAt", "updatedAt"}
  {
    VisibleFieldsByTag(EpisodeResponse);
  }

  /** Two group lists that expose the same fields of every DTO serialize every value alike. */
  predicate SameExposure(g1: seq<Group>, g2: seq<Group>) {
    forall d: Dto :: VisibleFields(d, g1) == VisibleFields(d, g2)
  }

  lemma {:induction false} SameExposureSameOutput(d: Dto, g1: seq<Group>, g2: seq<Group>, v: Value)
    requires SameExposure(g1, g2)
    ensures SerializeObject(d, g1, v) == SerializeObject(d, g2, v)
    decreases Depth(d), v, 1
  {
    match v
    case Obj(m) =>
      SameExposureSameProjection(d, g1, g2, m);
    case Arr(items) =>
      forall i | 0 <= i < |items|
        ensures SerializeObject(d, g1, items[i]) == SerializeObject(d, g2, items[i])
      {
        SameExposureSameOutput(d, g1, g2, items[i]);
      }
    case _ =>
  }

  lemma {:induction false} SameExposureSameProjection(d: Dto, g1: seq<Group>, g2: seq<Group>, m: Record)
    requires SameExposure(g1, g2)
    ensures Project(d, g1, m) == Project(d, g2, m)
    decreases Depth(d), Obj(m), 0
  {
    var p1, p2 := Project(d, g1, m), Project(d, g2, m);
    assert p1.Keys == p2.Keys by { assert VisibleFields(d, g1) == VisibleFields(d, g2); }
    forall k | k in p1
      ensures p1[k] == p2[k]
    {
      assert p1[k] == ProjectField(d, g1, k, m[k]) && p2[k] == ProjectField(d, g2, k, m[k]);
      var nested := Spec(d, k).value.nested;
      if nested.Some? {
        SameExposureSameOutput(nested.value, g1, g2, m[k]);
      }
    }
  }

  /** A VIEWER receives exactly what an anonymous caller receives, for every payload. */
  lemma ViewerSeesWhatGuestsSee(d: Dto, v: Value)
    ensures SerializeObject(d, RoleGroups(Viewer), v) == SerializeObject(d, AnonymousGroups, v)
  {
    forall d': Dto
      ensures VisibleFields(d', RoleGroups(Viewer)) == VisibleFields(d', AnonymousGroups)
    {
      ViewerExposureIsGuestExposure(d');
    }
    SameExposureSameOutput(d, RoleGroups(Viewer), AnonymousGroups, v);
  }

  /** `a` is `b` with some object properties left out, at any depth. */
  predicate Narrower(a: Value, b: Value) {
    match a
    case Obj(ma) => b.Obj? && ma.Keys <= b.fields.Keys && forall k :: k in ma ==> Narrower(ma[k], b.fields[k])
    case Arr(xs) => b.Arr? && |xs| == |b.items| && forall i :: 0 <= i < |xs| ==> Narrower(xs[i], b.items[i])
    case _ => a == b
  }

  lemma {:induction false} NarrowerReflexive(v: Value)
    ensures Narrower(v, v)
  {
    match v
    case Obj(m) =>
      forall k | k in m ensures Narrower(m[k], m[k]) { NarrowerReflexive(m[k]); }
    case Arr(xs) =>
      forall i | 0 <= i < |xs| ensures Narrower(xs[i], xs[i]) { NarrowerReflexive(xs[i]); }
    case _ =>
  }

  /** Projection is monotone: more groups never remove a property, at any depth. */
  lemma {:induction false} SerializeMonotone(d: Dto, g1: seq<Group>, g2: seq<Group>, v: Value)
    requires forall g :: g in g1 ==> g in g2
    ensures Narrower(SerializeObject(d, g1, v), SerializeObject(d, g2, v))
    decreases Depth(d), v, 1
  {
    match v
    case Obj(m) =>
      ProjectMonotone(d, g1, g2, m);
    case Arr(items) =>
      var r1, r2 := SerializeObject(d, g1, v), SerializeObject(d, g2, v);
      forall i | 0 <= i < |items|
        ensures Narrower(r1.items[i], r2.items[i])
      {
        SerializeMonotone(d, g1, g2, items[i]);
      }
    case _ =>
  }

  lemma {:induction false} ProjectMonotone(d: Dto, g1: seq<Group>, g2: seq<Group>, m: Record)
    requires forall g :: g in g1 ==> g in g2
    ensures Narrower(Obj(Project(d, g1, m)), Obj(Project(d, g2, m)))
    decreases Depth(d), Obj(m), 0
  {
    var p1, p2 := Project(d, g1, m), Project(d, g2, m);
    forall k | k in p1
      ensures k in p2 && Narrower(p1[k], p2[k])
    {
      assert p1[k] == ProjectField(d, g1, k, m[k]) && p2[k] == ProjectField(d, g2, k, m[k]);
      var nested := Spec(d, k).value.nested;
      if nested.Some? {
        SerializeMonotone(nested.value, g1, g2, m[k]);
      } else {
        NarrowerReflexive(m[k]);
      }
    }
  }

  /** A higher role's response holds everything a lower role's response holds. */
  lemma HigherRoleSeesMore(d: Dto, r1: Role, r2: Role, v: Value)
    requires Outranks(r1, r2)
    ensures Narrower(SerializeObject(d, RoleGroups(r2), v), SerializeObject(d, RoleGroups(r1), v))
    ensures Narrower(SerializeObject(d, AnonymousGroups, v), SerializeObject(d, RoleGroups(r2), v))
  {
    RoleGroupsMonotone(r1, r2);
    SerializeMonotone(d, RoleGroups(r2), RoleGroups(r1), v);
    RoleGroupsChain();
    SerializeMonotone(d, AnonymousGroups, RoleGroups(r2), v);
  }

  /** Serializing an already serialized payload with the same groups changes nothing. */
  lemma {:induction false} SerializeIdempotent(d: Dto, g: seq<Group>, v: Value)
    ensures SerializeObject(d, g, SerializeObject(d, g, v)) == SerializeObject(d, g, v)
    decreases Depth(d), v, 1
  {
    match v
    case Obj(m) =>
      ProjectIdempotent(d, g, m);
    case Arr(items) =>
      var r := SerializeObject(d, g, v);
      forall i | 0 <= i < |items|
        ensures SerializeObject(d, g, r.items[i]) == r.items[i]
      {
        SerializeIdempotent(d, g, items[i]);
      }
      assert SerializeObject(d, g, r).items == r.items;
    case _ =>
  }

  lemma {:induction false} ProjectIdempotent(d: Dto, g: seq<Group>, m: Record)
    ensures Project(d, g, Project(d, g, m)) == Project(d, g, m)
    decreases Depth(d), Obj(m), 0
  {
    var p := Project(d, g, m);
    var pp := Project(d, g, p);
    forall k | k in p
      ensures pp[k] == p[k]
    {
      assert p[k] == ProjectField(d, g, k, m[k]) && pp[k] == ProjectField(d, g, k, p[k]);
      var nested := Spec(d, k).value.nested;
      if nested.Some? {
        SerializeIdempotent(nested.value, g, m[k]);
      }
    }
  }

  /** A guest's copy of an object holds only its public fields; every editor/admin or admin field is withheld. */
  lemma GuestSeesPublicOnly(d: Dto, m: Record)
    ensures Project(d, AnonymousGroups, m).Keys == TaggedPublic(d) * m.Keys
    ensures forall k :: k in TaggedEditorAdmin(d) + TaggedAdmin(d) ==> k !in Project(d, AnonymousGroups, m)
  {
    VisibleFieldsByTag(d);
    TagsAreDisjoint(d);
  }

  /** A relation field is public, so a guest receives it, transformed through the related DTO. */
  lemma GuestGetsRelation(d: Dto, m: Record, k: string)
    requires k in m && Relation(d, k).Some?
    ensures k in Project(d, AnonymousGroups, m)
    ensures Project(d, AnonymousGroups, m)[k] == SerializeObject(Relation(d, k).value, AnonymousGroups, m[k])
  {
    RelationsArePublic(d, k);
    assert Visible(Spec(d, k).value, AnonymousGroups) by { assert PublicGroup in AnonymousGroups; }
  }

  /** Guests reading a program never see the nested category's isActive or timestamps. */
  lemma GuestProgramCategoryIsPublicOnly(m: Record)
    requires "category" in m && m["category"].Obj?
    ensures var r := SerializeObject(ProgramResponse, AnonymousGroups, Obj(m)).fields;
            "category" in r && r["category"].Obj? &&
            r["category"].fields.Keys <= {"id", "nameAr", "nameEn", "descriptionAr", "descriptionEn"}
  {
    GuestGetsRelation(ProgramResponse, m, "category");
    GuestSeesPublicOnly(CategoryResponse, m["category"].fields);
  }

  /** Guests reading an episode see no status or timestamps; its nested program is projected as a guest reads a program. */
  lemma GuestEpisodeIsPublicOnly(m: Record)
    ensures var r := SerializeObject(EpisodeResponse, AnonymousGroups, Obj(m)).fields;
            "status" !in r && "createdAt" !in r && "updatedAt" !in r &&
            ("program" in m ==> "program" in r && r["program"] == SerializeObject(ProgramResponse, AnonymousGroups, m["program"]))
  {
    GuestSeesPublicOnly(EpisodeResponse, m);
    assert "status" in TaggedEditorAdmin(EpisodeResponse);
    assert "createdAt" in TaggedAdmin(EpisodeResponse) && "updatedAt" in TaggedAdmin(EpisodeResponse);
    if "program" in m {
      GuestGetsRelation(EpisodeResponse, m, "program");
    }
  }

  /** Guests never see a program's timestamps, whatever it is nested in. */
  lemma GuestProgramHidesTimestamps(m: Record)
    ensures var r := SerializeObject(ProgramResponse, AnonymousGroups, Obj(m)).fields;
            "createdAt" !in r && "updatedAt" !in r
  {
    GuestSeesPublicOnly(ProgramResponse, m);
    assert "createdAt" in TaggedAdmin(ProgramResponse) && "updatedAt" in TaggedAdmin(ProgramResponse);
  }
}
