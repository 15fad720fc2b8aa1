/** How instances of a defined resource are prepared for create, update and status update
    (pkg/registry/grafanaresource/strategy.go, status_strategy.go). */
module ResourceStrategy {
  import opened Kinds

  datatype Metadata = Metadata(generation: int, rv: nat, managedFields: string, other: string)

  /** A top-level field of an unstructured object. */
  datatype Value = Meta(m: Metadata) | Data(text: string)

  type Content = map<string, Value>

  const METADATA := "metadata"
  const STATUS := "status"

  lemma FieldsDiffer()
    ensures METADATA != STATUS
  {
    assert |METADATA| == 8 && |STATUS| == 6;
  }

  function MetaOf(c: Content): Metadata
  {
    if METADATA in c && c[METADATA].Meta? then c[METADATA].m else Metadata(0, 0, "", "")
  }

  function WithMeta(c: Content, m: Metadata): Content
  {
    c[METADATA := Meta(m)]
  }

  function WithGeneration(c: Content, g: int): Content
  {
    WithMeta(c, MetaOf(c).(generation := g))
  }

  function StatusOf(c: Content): Option<Value>
  {
    if STATUS in c then Some(c[STATUS]) else None
  }

  function WithStatus(c: Content, s: Option<Value>): Content
  {
    if s.Some? then c[STATUS := s.value] else c - {STATUS}
  }

  /** `status`: whether the status subresource is installed. */
  function PreparedForCreate(c: Content, status: bool): Content
  {
    WithGeneration(if status then c - {STATUS} else c, 1)
  }

  function PreparedForUpdate(n: Content, o: Content, status: bool): Content
  {
    var n' := if status then WithStatus(n, StatusOf(o)) else n;
    if n' - {METADATA} != o - {METADATA} then WithGeneration(n', MetaOf(o).generation + 1) else n'
  }

  function PreparedForStatusUpdate(n: Content, o: Content): Content
  {
    WithStatus(WithMeta(o, MetaOf(o).(managedFields := MetaOf(n).managedFields)), StatusOf(n))
  }

  // The store around the strategy: it gives the new object the old generation first, and a new
  // resource version afterwards.

  function Stamped(c: Content, rv: nat): Content
  {
    WithMeta(c, MetaOf(c).(rv := rv))
  }

  function Created(c: Content, status: bool, rv: nat): Content
  {
    Stamped(PreparedForCreate(c, status), rv)
  }

  function Updated(n: Content, o: Content, status: bool, rv: nat): Content
  {
    Stamped(PreparedForUpdate(WithGeneration(n, MetaOf(o).generation), o, status), rv)
  }

  function StatusUpdated(n: Content, o: Content, rv: nat): Content
  {
    Stamped(PreparedForStatusUpdate(n, o), rv)
  }

  // ---------------------------------------------------------------- isolation over histories

  /** Everything that is neither metadata nor status. */
  function Body(c: Content): Content
  {
    c - {METADATA, STATUS}
  }

  datatype Write = MainWrite(n: Content) | StatusWrite(n: Content)

  /** One object with the status subresource, created and then written to. */
  function After(first: Content, writes: seq<Write>, rvs: nat -> nat): Content
  {
    if writes == [] then Created(first, true, rvs(0))
    else
      var before := After(first, writes[..|writes| - 1], rvs);
      match writes[|writes| - 1]
      case MainWrite(n) => Updated(n, before, true, rvs(|writes|))
      case StatusWrite(n) => StatusUpdated(n, before, rvs(|writes|))
  }

  /** What the last main write, or the creation, sent. */
  function LastMain(first: Content, writes: seq<Write>): Content
  {
    if writes == [] then first
    else if writes[|writes| - 1].MainWrite? then writes[|writes| - 1].n
    else LastMain(first, writes[..|writes| - 1])
  }

  function LastStatus(writes: seq<Write>): Option<Value>
  {
    if writes == [] then None
    else if writes[|writes| - 1].StatusWrite? then StatusOf(writes[|writes| - 1].n)
    else LastStatus(writes[..|writes| - 1])
  }

  /** How many main writes sent another body than the main write before. */
  function BodyChanges(first: Content, writes: seq<Write>): nat
  {
    if writes == [] then 0
    else
      var before := writes[..|writes| - 1];
      BodyChanges(first, before) +
      if writes[|writes| - 1].MainWrite? && Body(writes[|writes| - 1].n) != Body(LastMain(first, before)) then 1 else 0
  }

  /** Fields of the metadata that only main writes set. */
  function UserMeta(c: Content): string
  {
    MetaOf(c).other
  }

  lemma CreatedParts(c: Content, rv: nat)
    ensures var c' := Created(c, true, rv);
            Body(c') == Body(c) && StatusOf(c').None? && UserMeta(c') == UserMeta(c) && MetaOf(c').generation == 1
  {
    FieldsDiffer();
  }

  lemma UpdatedParts(n: Content, o: Content, rv: nat)
    requires METADATA in o && o[METADATA].Meta?
    ensures var c := Updated(n, o, true, rv);
            && Body(c) == Body(n) && StatusOf(c) == StatusOf(o) && UserMeta(c) == UserMeta(n)
            && MetaOf(c).generation == MetaOf(o).generation + (if Body(n) != Body(o) then 1 else 0)
            && METADATA in c && c[METADATA].Meta? && MetaOf(c).rv == rv && MetaOf(c).managedFields == MetaOf(n).managedFields
  {
    FieldsDiffer();
    var n' := WithStatus(WithGeneration(n, MetaOf(o).generation), StatusOf(o));
    assert MetaOf(n') == MetaOf(n).(generation := MetaOf(o).generation);
    assert Body(n') == Body(n);
    SplitStatus(n');
    SplitStatus(o);
    assert Body(n') == (n' - {METADATA}) - {STATUS} && Body(o) == (o - {METADATA}) - {STATUS};
    assert StatusOf(n') == StatusOf(o);
  }

  /** Apart from the metadata an object is its body and its status. */
  lemma SplitStatus(c: Content)
    ensures c - {METADATA} == WithStatus(Body(c), StatusOf(c))
  {
    FieldsDiffer();
  }

  lemma StatusUpdatedParts(n: Content, o: Content, rv: nat)
    requires METADATA in o && o[METADATA].Meta?
    ensures var c := StatusUpdated(n, o, rv);
            && Body(c) == Body(o) && StatusOf(c) == StatusOf(n) && UserMeta(c) == UserMeta(o)
            && MetaOf(c).generation == MetaOf(o).generation
            && METADATA in c && c[METADATA].Meta? && MetaOf(c).rv == rv && MetaOf(c).managedFields == MetaOf(n).managedFields
  {
    FieldsDiffer();
  }

  /** After any interleaving of main and status writes: the status is the one the last status write
      sent, the rest is what the last main write sent, and the generation is one more than the number
      of main writes that changed the body. */
  lemma {:induction false} WritesAreIsolated(first: Content, writes: seq<Write>, rvs: nat -> nat)
    ensures var c := After(first, writes, rvs);
            && METADATA in c && c[METADATA].Meta?
            && StatusOf(c) == LastStatus(writes)
            && Body(c) == Body(LastMain(first, writes)) && UserMeta(c) == UserMeta(LastMain(first, writes))
            && MetaOf(c).generation == 1 + BodyChanges(first, writes)
  {
    if writes == [] {
      CreatedParts(first, rvs(0));
    } else {
      var before := writes[..|writes| - 1];
      WritesAreIsolated(first, before, rvs);
      match writes[|writes| - 1]
      case MainWrite(n) => UpdatedParts(n, After(first, before, rvs), rvs(|writes|));
      case StatusWrite(n) => StatusUpdatedParts(n, After(first, before, rvs), rvs(|writes|));
    }
  }

  /** The object without what the store itself keeps track of. */
  function Essence(c: Content): Content
  {
    WithMeta(c, MetaOf(c).(managedFields := "", rv := 0))
  }

  lemma SameEssence(a: Content, b: Content)
    requires Body(a) == Body(b) && StatusOf(a) == StatusOf(b) && UserMeta(a) == UserMeta(b)
    requires MetaOf(a).generation == MetaOf(b).generation
    ensures Essence(a) == Essence(b)
  {
    FieldsDiffer();
    SplitStatus(a);
    SplitStatus(b);
    assert Essence(a) - {METADATA} == a - {METADATA} && Essence(b) - {METADATA} == b - {METADATA};
    assert Essence(a) == (a - {METADATA})[METADATA := Essence(a)[METADATA]];
    assert Essence(b) == (b - {METADATA})[METADATA := Essence(b)[METADATA]];
  }

  /** A main and a status write commute, up to resource version and managed fields. */
  lemma WritesCommute(o: Content, main: Content, status: Content, rv1: nat, rv2: nat)
    requires METADATA in o && o[METADATA].Meta?
    ensures Essence(StatusUpdated(status, Updated(main, o, true, rv1), rv2)) ==
            Essence(Updated(main, StatusUpdated(status, o, rv1), true, rv2))
  {
    UpdatedParts(main, o, rv1);
    StatusUpdatedParts(status, Updated(main, o, true, rv1), rv2);
    StatusUpdatedParts(status, o, rv1);
    UpdatedParts(main, StatusUpdated(status, o, rv1), rv2);
    SameEssence(StatusUpdated(status, Updated(main, o, true, rv1), rv2),
                Updated(main, StatusUpdated(status, o, rv1), true, rv2));
  }

  // ---------------------------------------------------------------- without the status subresource

  lemma PlainCreatedParts(c: Content, rv: nat)
    ensures var c' := Created(c, false, rv);
            && c' - {METADATA} == c - {METADATA} && StatusOf(c') == StatusOf(c)
            && UserMeta(c') == UserMeta(c) && MetaOf(c').generation == 1
            && METADATA in c' && c'[METADATA].Meta? && MetaOf(c').rv == rv
  {
    FieldsDiffer();
  }

  /** A status is then a field like any other: it is replaced, and a change of it raises the generation. */
  lemma PlainUpdatedParts(n: Content, o: Content, rv: nat)
    requires METADATA in o && o[METADATA].Meta?
    ensures var c := Updated(n, o, false, rv);
            && c - {METADATA} == n - {METADATA} && StatusOf(c) == StatusOf(n) && UserMeta(c) == UserMeta(n)
            && MetaOf(c).generation == MetaOf(o).generation + (if Body(n) == Body(o) && StatusOf(n) == StatusOf(o) then 0 else 1)
            && METADATA in c && c[METADATA].Meta? && MetaOf(c).rv == rv && MetaOf(c).managedFields == MetaOf(n).managedFields
  {
    FieldsDiffer();
    var n' := WithGeneration(n, MetaOf(o).generation);
    assert n' - {METADATA} == n - {METADATA};
    SplitStatus(n);
    SplitStatus(o);
    assert Body(n) == (n - {METADATA}) - {STATUS} && Body(o) == (o - {METADATA}) - {STATUS};
    assert n - {METADATA} == o - {METADATA} ==> StatusOf(n) == StatusOf(n - {METADATA}) == StatusOf(o);
  }

  /** One object of a resource without the status subresource. */
  function AfterPlain(first: Content, sent: seq<Content>, rvs: nat -> nat): Content
  {
    if sent == [] then Created(first, false, rvs(0))
    else Updated(sent[|sent| - 1], AfterPlain(first, sent[..|sent| - 1], rvs), false, rvs(|sent|))
  }

  function Latest(first: Content, sent: seq<Content>): Content
  {
    if sent == [] then first else sent[|sent| - 1]
  }

  /** How many writes sent other fields than the write before. */
  function FieldChanges(first: Content, sent: seq<Content>): nat
  {
    if sent == [] then 0
    else
      var before := sent[..|sent| - 1];
      FieldChanges(first, before) + if sent[|sent| - 1] - {METADATA} != Latest(first, before) - {METADATA} then 1 else 0
  }

  /** Over any sequence of writes the object has the fields sent last, the status included, and its
      generation is one more than the number of writes that changed any. */
  lemma {:induction false} PlainWritesReplace(first: Content, sent: seq<Content>, rvs: nat -> nat)
    ensures var c := AfterPlain(first, sent, rvs);
            && METADATA in c && c[METADATA].Meta?
            && c - {METADATA} == Latest(first, sent) - {METADATA} && UserMeta(c) == UserMeta(Latest(first, sent))
            && MetaOf(c).generation == 1 + FieldChanges(first, sent)
  {
    if sent == [] {
      PlainCreatedParts(first, rvs(0));
    } else {
      var before, n := sent[..|sent| - 1], sent[|sent| - 1];
      PlainWritesReplace(first, before, rvs);
      var o := AfterPlain(first, before, rvs);
      PlainUpdatedParts(n, o, rvs(|sent|));
      SameParts(n, o);
    }
  }

  lemma SameParts(a: Content, b: Content)
    ensures a - {METADATA} == b - {METADATA} <==> Body(a) == Body(b) && StatusOf(a) == StatusOf(b)
  {
    FieldsDiffer();
    SplitStatus(a);
    SplitStatus(b);
    assert Body(a) == (a - {METADATA}) - {STATUS} && Body(b) == (b - {METADATA}) - {STATUS};
    assert StatusOf(a) == StatusOf(a - {METADATA}) && StatusOf(b) == StatusOf(b - {METADATA});
  }

  // ---------------------------------------------------------------- the strategy on objects

  class Unstructured {
    var content: Content

    constructor (content: Content)
      ensures this.content == content
    {
      this.content := content;
    }

    method SetGeneration(g: int)
      modifies this
      ensures content == WithGeneration(old(content), g)
    {
      content := WithMeta(content, MetaOf(content).(generation := g));
    }
  }

  method CopyNonMetadata(original: Content) returns (ret: Content)
    ensures ret == original - {METADATA}
  {
    ret := map[];
    var todo := original.Keys;
    while todo != {}
      invariant todo <= original.Keys
      invariant ret.Keys == original.Keys - todo - {METADATA}
      invariant forall key :: key in ret ==> ret[key] == original[key]
      decreases todo
    {
      var key :| key in todo;
      todo := todo - {key};
      if key == METADATA {
        continue;
      }
      ret := ret[key := original[key]];
    }
  }

  class Strategy {
    const status: bool

    constructor (status: bool)
      ensures this.status == status
    {
      this.status := status;
    }

    method PrepareForCreate(obj: Unstructured)
      modifies obj
      ensures obj.content == PreparedForCreate(old(obj.content), status)
    {
      if status {
        obj.content := obj.content - {STATUS};
      }
      obj.SetGeneration(1);
    }

    method PrepareForUpdate(obj: Unstructured, prior: Unstructured)
      requires obj != prior
      modifies obj
      ensures obj.content == PreparedForUpdate(old(obj.content), prior.content, status)
    {
      if status {
        if STATUS in prior.content {
          obj.content := obj.content[STATUS := prior.content[STATUS]];
        } else if STATUS in obj.content {
          obj.content := obj.content - {STATUS};
        }
      }
      assert obj.content == if status then WithStatus(old(obj.content), StatusOf(prior.content)) else old(obj.content);
      var newCopy := CopyNonMetadata(obj.content);
      var priorCopy := CopyNonMetadata(prior.content);
      if newCopy != priorCopy {
        obj.SetGeneration(MetaOf(prior.content).generation + 1);
      }
    }
  }

  class StatusStrategy {
    constructor ()
    {
    }

    method PrepareForUpdate(obj: Unstructured, prior: Unstructured)
      requires obj != prior
      modifies obj
      ensures obj.content == PreparedForStatusUpdate(old(obj.content), prior.content)
    {
      var status := StatusOf(obj.content);
      var managedFields := MetaOf(obj.content).managedFields;
      obj.content := prior.content;
      obj.content := WithMeta(obj.content, MetaOf(obj.content).(managedFields := managedFields));
      if status.Some? {
        obj.content := obj.content[STATUS := status.value];
      } else {
        obj.content := obj.content - {STATUS};
      }
    }
  }
}
