/**
 * `serialize(obj)`, defined identically in
 * src/ccaudio/ccaudio_downloader/ccaudio_downloader/pipelines.py and
 * src/ccaudio/preprocess/pipeline/whisper_transcribe.py, over a model of the Python
 * values it can meet, and the recognised segments it is applied to.
 */
module Serialization {
  import opened Wrappers

  /** Python values: scalars, lists, tuples, dicts (in insertion order) and dataclass instances. */
  datatype PyValue =
    | PyNone
    | PyBool(b: bool)
    | PyInt(i: int)
    | PyFloat(x: real)
    | PyStr(s: string)
    | PyList(items: seq<PyValue>)
    | PyTuple(items: seq<PyValue>)
    | PyDict(entries: seq<Entry>)
    | Dataclass(name: string, fields: seq<Field>)

  datatype Entry = Entry(key: PyValue, value: PyValue)

  datatype Field = Field(name: string, value: PyValue)

  /** `dataclasses.asdict` (its recursive helper): dataclasses become dicts of their fields, containers are rebuilt. */
  function AsDict(v: PyValue): PyValue
    decreases v
  {
    match v
    case Dataclass(_, fs) =>
      PyDict(seq(|fs|, i requires 0 <= i < |fs| => Entry(PyStr(fs[i].name), AsDict(fs[i].value))))
    case PyList(xs) => PyList(seq(|xs|, i requires 0 <= i < |xs| => AsDict(xs[i])))
    case PyTuple(xs) => PyTuple(seq(|xs|, i requires 0 <= i < |xs| => AsDict(xs[i])))
    case PyDict(es) =>
      PyDict(seq(|es|, i requires 0 <= i < |es| => Entry(AsDict(es[i].key), AsDict(es[i].value))))
    case _ => v
  }

  /**
   * `serialize(obj)`: a dataclass instance becomes `asdict(obj)`, a list is serialised
   * elementwise, a dict keeps its keys (in order) and has its values serialised, and
   * every other value, tuples included, is returned as it is.
   */
  function Serialize(v: PyValue): (r: PyValue)
    decreases v
    ensures v.Dataclass? ==> r == AsDict(v)
    ensures v.PyList? ==> r.PyList? && |r.items| == |v.items|
    ensures v.PyDict? ==> r.PyDict? && |r.entries| == |v.entries|
                          && forall i :: 0 <= i < |v.entries| ==> r.entries[i].key == v.entries[i].key
    ensures !v.Dataclass? && !v.PyList? && !v.PyDict? ==> r == v
  {
    match v
    case Dataclass(_, _) => AsDict(v)
    case PyList(xs) => PyList(seq(|xs|, i requires 0 <= i < |xs| => Serialize(xs[i])))
    case PyDict(es) => PyDict(seq(|es|, i requires 0 <= i < |es| => Entry(es[i].key, Serialize(es[i].value))))
    case _ => v
  }

  /** No dataclass instance anywhere inside the value. */
  predicate NoDataclass(v: PyValue)
    decreases v
  {
    match v
    case Dataclass(_, _) => false
    case PyList(xs) => forall i :: 0 <= i < |xs| ==> NoDataclass(xs[i])
    case PyTuple(xs) => forall i :: 0 <= i < |xs| ==> NoDataclass(xs[i])
    case PyDict(es) => forall i :: 0 <= i < |es| ==> NoDataclass(es[i].key) && NoDataclass(es[i].value)
    case _ => true
  }

  /** `asdict` leaves no dataclass behind. */
  lemma {:induction false} AsDictNoDataclass(v: PyValue)
    decreases v
    ensures NoDataclass(AsDict(v))
  {
    match v
    case Dataclass(_, fs) =>
      forall i | 0 <= i < |fs| ensures NoDataclass(AsDict(fs[i].value)) {
        AsDictNoDataclass(fs[i].value);
      }
    case PyList(xs) =>
      forall i | 0 <= i < |xs| ensures NoDataclass(AsDict(xs[i])) {
        AsDictNoDataclass(xs[i]);
      }
    case PyTuple(xs) =>
      forall i | 0 <= i < |xs| ensures NoDataclass(AsDict(xs[i])) {
        AsDictNoDataclass(xs[i]);
      }
    case PyDict(es) =>
      forall i | 0 <= i < |es| ensures NoDataclass(AsDict(es[i].key)) && NoDataclass(AsDict(es[i].value)) {
        AsDictNoDataclass(es[i].key);
        AsDictNoDataclass(es[i].value);
      }
    case _ =>
  }

  /** A value without dataclasses is returned unchanged, at every depth. */
  lemma {:induction false} SerializeFixesPlainValues(v: PyValue)
    decreases v
    requires NoDataclass(v)
    ensures Serialize(v) == v
  {
    match v
    case PyList(xs) =>
      forall i | 0 <= i < |xs| ensures Serialize(xs[i]) == xs[i] {
        SerializeFixesPlainValues(xs[i]);
      }
      assert Serialize(v).items == xs;
    case PyDict(es) =>
      forall i | 0 <= i < |es| ensures Serialize(es[i].value) == es[i].value {
        SerializeFixesPlainValues(es[i].value);
      }
      assert Serialize(v).entries == es;
    case _ =>
  }

  /** Serialising a serialised value changes nothing. */
  lemma {:induction false} SerializeIdempotent(v: PyValue)
    decreases v
    ensures Serialize(Serialize(v)) == Serialize(v)
  {
    match v
    case Dataclass(_, _) =>
      AsDictNoDataclass(v);
      SerializeFixesPlainValues(AsDict(v));
    case PyList(xs) =>
      forall i | 0 <= i < |xs| ensures Serialize(Serialize(xs[i])) == Serialize(xs[i]) {
        SerializeIdempotent(xs[i]);
      }
      assert Serialize(Serialize(v)).items == Serialize(v).items;
    case PyDict(es) =>
      forall i | 0 <= i < |es| ensures Serialize(Serialize(es[i].value)) == Serialize(es[i].value) {
        SerializeIdempotent(es[i].value);
      }
      assert Serialize(Serialize(v)).entries == Serialize(v).entries;
    case _ =>
  }

  /**
   * What `serialize` can leave behind: no dataclass instance except inside a tuple or a
   * dict key, the two places it does not descend into.
   */
  predicate SerializedForm(v: PyValue)
    decreases v
  {
    match v
    case Dataclass(_, _) => false
    case PyList(xs) => forall i :: 0 <= i < |xs| ==> SerializedForm(xs[i])
    case PyDict(es) => forall i :: 0 <= i < |es| ==> SerializedForm(es[i].value)
    case _ => true
  }

  /** A value with no dataclass anywhere is in serialised form. */
  lemma {:induction false} NoDataclassIsSerializedForm(v: PyValue)
    decreases v
    requires NoDataclass(v)
    ensures SerializedForm(v)
  {
    match v
    case PyList(xs) =>
      forall i | 0 <= i < |xs| ensures SerializedForm(xs[i]) {
        NoDataclassIsSerializedForm(xs[i]);
      }
    case PyDict(es) =>
      forall i | 0 <= i < |es| ensures SerializedForm(es[i].value) {
        NoDataclassIsSerializedForm(es[i].value);
      }
    case _ =>
  }

  /** Every result of `serialize` is in serialised form: no dataclass is left outside tuples and dict keys. */
  lemma {:induction false} SerializeReachesSerializedForm(v: PyValue)
    decreases v
    ensures SerializedForm(Serialize(v))
  {
    match v
    case Dataclass(_, _) =>
      AsDictNoDataclass(v);
      NoDataclassIsSerializedForm(AsDict(v));
    case PyList(xs) =>
      forall i | 0 <= i < |xs| ensures SerializedForm(Serialize(xs[i])) {
        SerializeReachesSerializedForm(xs[i]);
      }
    case PyDict(es) =>
      forall i | 0 <= i < |es| ensures SerializedForm(Serialize(es[i].value)) {
        SerializeReachesSerializedForm(es[i].value);
      }
    case _ =>
  }

  /** A value in serialised form is returned unchanged. */
  lemma {:induction false} SerializeFixesSerializedForm(v: PyValue)
    decreases v
    requires SerializedForm(v)
    ensures Serialize(v) == v
  {
    match v
    case PyList(xs) =>
      forall i | 0 <= i < |xs| ensures Serialize(xs[i]) == xs[i] {
        SerializeFixesSerializedForm(xs[i]);
      }
      assert Serialize(v).items == xs;
    case PyDict(es) =>
      forall i | 0 <= i < |es| ensures Serialize(es[i].value) == es[i].value {
        SerializeFixesSerializedForm(es[i].value);
      }
      assert Serialize(v).entries == es;
    case _ =>
  }

  /** The values `serialize` leaves unchanged are exactly those in serialised form. */
  lemma SerializeFixedPoints(v: PyValue)
    ensures Serialize(v) == v <==> SerializedForm(v)
  {
    SerializeReachesSerializedForm(v);
    if SerializedForm(v) {
      SerializeFixesSerializedForm(v);
    }
  }

  /** A dataclass inside a tuple is not converted: `serialize` only descends into lists and dicts. */
  lemma SerializeSkipsTuples(name: string)
    ensures var v := PyTuple([Dataclass(name, [])]);
      Serialize(v) == v && !NoDataclass(Serialize(v))
  {
    var v := PyTuple([Dataclass(name, [])]);
    assert !NoDataclass(v.items[0]);
  }

  /** `d[key]` on a dict: the value under the first entry with that key, None for KeyError. */
  function Lookup(entries: seq<Entry>, key: PyValue): (r: Option<PyValue>)
    ensures r.Some? <==> exists i :: 0 <= i < |entries| && entries[i].key == key
  {
    if entries == [] then None
    else if entries[0].key == key then Some(entries[0].value)
    else Lookup(entries[1..], key)
  }

  /** A recognised segment: its text and its start and end offsets in seconds. */
  datatype Segment = Segment(text: string, start: real, end: real)

  /** The recogniser's segment object (a dataclass) as a Python value. */
  function SegmentValue(s: Segment): PyValue {
    Dataclass("Segment", [Field("start", PyFloat(s.start)), Field("end", PyFloat(s.end)), Field("text", PyStr(s.text))])
  }

  /**
   * Reading a serialised segment back as the transcription loops do (`seg["text"]`,
   * `seg["start"]`, `seg["end"]`): None when a key is missing or has another type.
   */
  function SegmentFromDict(entries: seq<Entry>): Option<Segment> {
    var text, start, end := Lookup(entries, PyStr("text")), Lookup(entries, PyStr("start")), Lookup(entries, PyStr("end"));
    if text.Some? && text.value.PyStr? && start.Some? && start.value.PyFloat? && end.Some? && end.value.PyFloat?
    then Some(Segment(text.value.s, start.value.x, end.value.x))
    else None
  }

  /** Serialising a segment and reading it back gives the segment. */
  lemma SegmentRoundTrip(s: Segment)
    ensures Serialize(SegmentValue(s)).PyDict?
    ensures SegmentFromDict(Serialize(SegmentValue(s)).entries) == Some(s)
  {
    SerializedSegment(s);
  }

  /** The serialised segment is a dict whose "text", "start" and "end" are the segment's own. */
  lemma SerializedSegment(s: Segment)
    ensures Serialize(SegmentValue(s)).PyDict?
    ensures var es := Serialize(SegmentValue(s)).entries;
      Lookup(es, PyStr("text")) == Some(PyStr(s.text))
      && Lookup(es, PyStr("start")) == Some(PyFloat(s.start))
      && Lookup(es, PyStr("end")) == Some(PyFloat(s.end))
  {
    var es := Serialize(SegmentValue(s)).entries;
    assert |es| == 3;
    assert es[0] == Entry(PyStr("start"), AsDict(PyFloat(s.start)));
    assert es[1] == Entry(PyStr("end"), AsDict(PyFloat(s.end)));
    assert es[2] == Entry(PyStr("text"), AsDict(PyStr(s.text)));
    assert es == [Entry(PyStr("start"), PyFloat(s.start)), Entry(PyStr("end"), PyFloat(s.end)), Entry(PyStr("text"), PyStr(s.text))];
    assert es[1..] == [Entry(PyStr("end"), PyFloat(s.end)), Entry(PyStr("text"), PyStr(s.text))];
    assert es[1..][1..] == [Entry(PyStr("text"), PyStr(s.text))];
    assert "start"[0] != "text"[0] && "end"[0] != "text"[0] && "start"[0] != "end"[0];
    assert Lookup(es[1..][1..], PyStr("text")) == Some(PyStr(s.text));
    assert Lookup(es[1..], PyStr("text")) == Lookup(es[1..][1..], PyStr("text"));
  }
}
