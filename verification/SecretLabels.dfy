/**
 Names under which a provider stores relation secrets: the secret groups, the
 label of a group's secret, the databag key holding its URI, and the reverse
 reading of a label (`Data._generate_secret_label`, `_generate_secret_field_name`,
 `_relation_from_secret_label`).
 */
module SecretLabels {
  import opened Text

  datatype Group = User | Tls | Mtls | Entity | Extra

  function GroupName(g: Group): string {
    match g
    case User => "user"
    case Tls => "tls"
    case Mtls => "mtls"
    case Entity => "entity"
    case Extra => "extra"
  }

  const SECRET_LABEL_MAP: map<string, Group> := map[
    "username" := User, "password" := User, "uris" := User, "read-only-uris" := User,
    "tls" := Tls, "tls-ca" := Tls, "mtls-cert" := Mtls,
    "entity-name" := Entity, "entity-password" := Entity]

  /** The group of a field under a label map; unrecognised fields end up in the extra group. */
  function GroupIn(labelMap: map<string, Group>, field: string): Group {
    if field in labelMap then labelMap[field] else Extra
  }

  /** The requirer's field that opens a relation, and what a provider may write before it is there. */
  const RESOURCE_FIELD := "database"
  const EARLY_FIELDS: set<string> := {"endpoints", "read-only-endpoints", "replset", "encryption-secret"}

  const PROV_SECRET_PREFIX := "secret-"

  predicate IsSecretField(field: string) { PROV_SECRET_PREFIX <= field }

  function FieldName(g: Group): string { PROV_SECRET_PREFIX + GroupName(g) }

  function LabelText(relationName: string, relationId: nat, group: string): string {
    relationName + "." + Decimal(relationId) + "." + group + ".secret"
  }

  /** The relation name and id read back from a label, if it has them. */
  function RelationOf(text: string): Option<(string, int)> {
    var parts := Split(text);
    if |parts| < 3 then None
    else
      var id := ParseInt(parts[|parts| - 3]);
      if id.Some? then Some((Join(parts[..|parts| - 3]), id.value)) else None
  }

  datatype Lookup = NotALabel | PointsTo(name: string, id: int) | Dangling

  /** `_relation_from_secret_label`: looking up a relation that does not exist raises (`Dangling`). */
  function RelationFrom(text: string, relations: set<(string, int)>): Lookup {
    match RelationOf(text)
    case None => NotALabel
    case Some(relation) => if relation in relations then PointsTo(relation.0, relation.1) else Dangling
  }

  lemma LabelNested(name: string, id: string, group: string)
    ensures name + "." + id + "." + group + ".secret" == name + "." + (id + "." + (group + "." + "secret"))
  {
    assert ".secret" == "." + "secret";
  }

  lemma PiecesOf(id: string, group: string, last: string)
    requires Free(id, '.') && Free(group, '.') && Free(last, '.')
    ensures Split(id) + (Split(group) + Split(last)) == [id, group, last]
  {
    SplitOfPiece(id);
    SplitOfPiece(group);
    SplitOfPiece(last);
  }

  /** A label falls apart into the pieces of the relation name, then id, group and "secret". */
  lemma LabelPieces(name: string, id: nat, group: string)
    requires Free(group, '.')
    ensures Split(LabelText(name, id, group)) == Split(name) + [Decimal(id), group, "secret"]
  {
    var tail := group + "." + "secret";
    LabelNested(name, Decimal(id), group);
    SplitAtDot(name, Decimal(id) + "." + tail);
    SplitAtDot(Decimal(id), tail);
    SplitAtDot(group, "secret");
    PiecesOf(Decimal(id), group, "secret");
  }

  /** Printing then parsing gives back the relation, whatever dots its name holds. */
  lemma LabelRoundTrip(name: string, id: nat, group: string)
    requires Free(group, '.')
    ensures RelationOf(LabelText(name, id, group)) == Some((name, id))
    ensures forall relations: set<(string, int)> ::
              RelationFrom(LabelText(name, id, group), relations) ==
              if (name, id) in relations then PointsTo(name, id) else Dangling
  {
    LabelPieces(name, id, group);
    var parts := Split(LabelText(name, id, group));
    assert parts[..|parts| - 3] == Split(name);
    JoinOfSplit(name);
    ParseOfDecimal(id);
  }

  /** Any text whose last three pieces are `id`, `group` and `last` is read as the id and all that stands before. */
  lemma ParsesExactly(name: string, id: string, group: string, last: string)
    requires Free(id, '.') && Free(group, '.') && Free(last, '.')
    ensures RelationOf(name + "." + (id + "." + (group + "." + last))) ==
            if ParseInt(id).Some? then Some((name, ParseInt(id).value)) else None
  {
    var text := name + "." + (id + "." + (group + "." + last));
    SplitAtDot(name, id + "." + (group + "." + last));
    SplitAtDot(id, group + "." + last);
    SplitAtDot(group, last);
    PiecesOf(id, group, last);
    var parts := Split(text);
    assert parts == Split(name) + [id, group, last];
    assert parts[..|parts| - 3] == Split(name);
    JoinOfSplit(name);
  }

  /** Three pieces are read as an id without a name, fewer as nothing. */
  lemma ShortTexts(a: string, b: string, c: string)
    requires Free(a, '.') && Free(b, '.') && Free(c, '.')
    ensures RelationOf(a) == None && RelationOf(a + "." + b) == None
    ensures RelationOf(a + "." + (b + "." + c)) ==
            if ParseInt(a).Some? then Some(("", ParseInt(a).value)) else None
  {
    SplitOfPiece(a);
    SplitOfPiece(b);
    SplitAtDot(a, b);
    SplitAtDot(a, b + "." + c);
    SplitAtDot(b, c);
    PiecesOf(a, b, c);
    assert [a, b, c][..0] == [];
  }

  /** Distinct (relation, id, group) triples never share a label. */
  lemma LabelInjective(name: string, id: nat, group: string, name': string, id': nat, group': string)
    requires Free(group, '.') && Free(group', '.')
    requires LabelText(name, id, group) == LabelText(name', id', group')
    ensures name == name' && id == id' && group == group'
  {
    LabelRoundTrip(name, id, group);
    LabelRoundTrip(name', id', group');
    LabelPieces(name, id, group);
    LabelPieces(name', id', group');
    var parts := Split(LabelText(name, id, group));
    assert parts[|parts| - 2] == group && parts[|parts| - 2] == group';
  }

  /** A secret's label within one relation name; `LabelText` is what Juju is given. */
  datatype Label = Label(relation: nat, group: Group)

  lemma GroupNameInjective(g: Group, g': Group)
    ensures Free(GroupName(g), '.')
    ensures GroupName(g) == GroupName(g') ==> g == g'
  {
    assert "user"[0] == 'u' && "tls"[0] == 't' && "mtls"[0] == 'm';
    assert "entity"[0] == "extra"[0] == 'e' && "entity"[1] == 'n' && "extra"[1] == 'x';
  }

  /** Standing for the text by the pair (relation id, group) loses nothing: equal texts are equal labels. */
  lemma LabelFaithful(relationName: string, l: Label, l': Label)
    ensures (LabelText(relationName, l.relation, GroupName(l.group)) ==
             LabelText(relationName, l'.relation, GroupName(l'.group))) <==> l == l'
  {
    GroupNameInjective(l.group, l'.group);
    GroupNameInjective(l'.group, l.group);
    if LabelText(relationName, l.relation, GroupName(l.group)) ==
      LabelText(relationName, l'.relation, GroupName(l'.group)) {
      LabelInjective(relationName, l.relation, GroupName(l.group), relationName, l'.relation, GroupName(l'.group));
    }
  }

  /**
   The names a `Data` class works with. They are overridable in the library, so
   the storage model takes them as values and relies on `Sound` only.
   */
  datatype Scheme = Scheme(
    uriKeys: map<Group, string>,
    uriSet: set<string>,
    labelMap: map<string, Group>,
    resource: string,
    early: set<string>)

  function UriKey(s: Scheme, g: Group): string { if g in s.uriKeys then s.uriKeys[g] else "" }

  predicate IsUriKey(s: Scheme, k: string) { k in s.uriSet }

  ghost predicate KeysMarked(s: Scheme) { forall g :: IsUriKey(s, UriKey(s, g)) }

  /** URI keys of different groups differ, are recognised as such, and look like secret references. */
  ghost predicate Sound(s: Scheme) {
    && KeysMarked(s)
    && (forall g, g' :: UriKey(s, g) == UriKey(s, g') ==> g == g')
    && (forall k :: IsUriKey(s, k) ==> IsSecretField(k) && exists g :: k == UriKey(s, g))
  }

  /** The naming of `Data`. */
  const PROVIDER_SCHEME: Scheme := Scheme(
    map[User := FieldName(User), Tls := FieldName(Tls), Mtls := FieldName(Mtls),
        Entity := FieldName(Entity), Extra := FieldName(Extra)],
    {FieldName(User), FieldName(Tls), FieldName(Mtls), FieldName(Entity), FieldName(Extra)},
    SECRET_LABEL_MAP, RESOURCE_FIELD, EARLY_FIELDS)

  lemma ProviderKey(g: Group)
    ensures UriKey(PROVIDER_SCHEME, g) == FieldName(g) && IsUriKey(PROVIDER_SCHEME, FieldName(g))
  {
    match g { case User => case Tls => case Mtls => case Entity => case Extra => }
  }

  /** The library's own naming never confuses two URI keys. */
  lemma ProviderSchemeSound()
    ensures Sound(PROVIDER_SCHEME)
  {
    var s := PROVIDER_SCHEME;
    forall g ensures IsUriKey(s, UriKey(s, g)) {
      ProviderKey(g);
    }
    forall g, g' | UriKey(s, g) == UriKey(s, g') ensures g == g' {
      ProviderKey(g);
      ProviderKey(g');
      assert FieldName(g)[7..] == GroupName(g) && FieldName(g')[7..] == GroupName(g');
      GroupNameInjective(g, g');
    }
    forall k | IsUriKey(s, k) ensures IsSecretField(k) && exists g :: k == UriKey(s, g) {
      ProviderKey(User); ProviderKey(Tls); ProviderKey(Mtls); ProviderKey(Entity); ProviderKey(Extra);
      assert k == UriKey(s, User) || k == UriKey(s, Tls) || k == UriKey(s, Mtls) || k == UriKey(s, Entity)
        || k == UriKey(s, Extra);
    }
  }

  /** The databag key that publishes the secret of a field. */
  function KeyOf(field: string): string {
    if field == "username" || field == "password" || field == "uris" || field == "read-only-uris" then "secret-user"
    else if field == "tls" || field == "tls-ca" then "secret-tls"
    else if field == "mtls-cert" then "secret-mtls"
    else if field == "entity-name" || field == "entity-password" then "secret-entity"
    else "secret-extra"
  }

  lemma GroupKeys()
    ensures FieldName(User) == "secret-user" && FieldName(Tls) == "secret-tls" && FieldName(Mtls) == "secret-mtls"
    ensures FieldName(Entity) == "secret-entity" && FieldName(Extra) == "secret-extra"
  {
  }

  lemma FieldGroup(field: string)
    ensures FieldName(GroupIn(SECRET_LABEL_MAP, field)) == KeyOf(field)
  {
    GroupKeys();
  }

  /** The library's naming publishes every field's secret under that key. */
  lemma KeyOfField(field: string)
    ensures UriKey(PROVIDER_SCHEME, GroupIn(PROVIDER_SCHEME.labelMap, field)) == KeyOf(field)
  {
    FieldGroup(field);
    ProviderKey(GroupIn(SECRET_LABEL_MAP, field));
  }
}
