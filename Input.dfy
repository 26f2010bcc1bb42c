/** Input bindings: named controls bound to a keyboard key or a mouse
    button, and the table of them read from the settings file. */
module Input {
  import opened Wrappers

  datatype BindType = Bind | Rebind

  datatype InputType = Keyboard | Mouse

  /** Mouse button ids (a subset of SDL's). */
  const BUTTON_1: int := 1
  const BUTTON_2: int := 2
  const BUTTON_3: int := 3
  const BUTTON_4: int := 4
  const BUTTON_5: int := 5

  /** The runtime_error Bindings::require throws, and the exception a
      settings value of the wrong kind throws from asObject() or asString(). */
  datatype InputError = BindingMissing(name: string) | TypeMismatch

  /** One binding. The source stores bindings by value in the table, so a
      binding is a value here and an update replaces it. */
  datatype Binding = Binding(kind: InputType, code: int, state: bool, justChanged: bool, enabled: bool) {

    predicate Active()
    {
      state
    }

    /** Pressed in this frame. */
    predicate JActive()
      ensures JActive() ==> Active()
      ensures JActive() <==> state && justChanged
    {
      state && justChanged
    }

    /** reset(type, code): rebinds to another control, nothing else changes. */
    function Reset(kind': InputType, code': int): (b: Binding)
      ensures b.kind == kind' && b.code == code'
      ensures b.state == state && b.justChanged == justChanged && b.enabled == enabled
    {
      this.(kind := kind', code := code')
    }

    /** reset(Keycode). */
    function ResetKey(keycode: int): (b: Binding)
      ensures b.kind == Keyboard && b.code == keycode
      ensures b.state == state && b.justChanged == justChanged && b.enabled == enabled
    {
      Reset(Keyboard, keycode)
    }

    /** reset(Mousecode). */
    function ResetMouse(mousecode: int): (b: Binding)
      ensures b.kind == Mouse && b.code == mousecode
      ensures b.state == state && b.justChanged == justChanged && b.enabled == enabled
    {
      Reset(Mouse, mousecode)
    }
  }

  /** Binding(type, code): released, not just changed, enabled. */
  function NewBinding(kind: InputType, code: int): (b: Binding)
    ensures b.kind == kind && b.code == code
    ensures !b.state && !b.justChanged && b.enabled
    ensures !b.Active() && !b.JActive()
  {
    Binding(kind, code, false, false, true)
  }

  /** input_util::to_string(Mousecode): the label shown for a mouse button. */
  function MouseLabel(code: int): (text: string)
    ensures code == BUTTON_1 ==> text == "LMB"
    ensures code == BUTTON_2 ==> text == "RMB"
    ensures code == BUTTON_3 ==> text == "MMB"
    ensures code == BUTTON_4 ==> text == "XButton 1"
    ensures code == BUTTON_5 ==> text == "XButton 2"
    ensures !(BUTTON_1 <= code <= BUTTON_5) ==> text == "unknown button"
  {
    if code == BUTTON_1 then "LMB"
    else if code == BUTTON_2 then "RMB"
    else if code == BUTTON_3 then "MMB"
    else if code == BUTTON_4 || code == BUTTON_5 then "XButton " + [('0' as int + (code - BUTTON_3)) as char]
    else "unknown button"
  }

  /** The five known buttons have five different labels, none of them the
      label of an unknown button. */
  lemma MouseLabelsDistinct(a: int, b: int)
    requires BUTTON_1 <= a <= BUTTON_5 && BUTTON_1 <= b <= BUTTON_5
    ensures MouseLabel(a) == MouseLabel(b) <==> a == b
    ensures MouseLabel(a) != MouseLabel(0)
  {
    assert MouseLabel(4) == "XButton 1" && MouseLabel(5) == "XButton 2";
  }

  /** A settings value as `read` sees it: a string, an object of named
      fields, or any other kind of value. */
  datatype Node = Text(text: string) | Object(fields: seq<Field>) | OtherValue

  /** One named field of an object: a section of the document, or one
      "name = value" line of a section. */
  datatype Field = Field(name: string, value: Node)

  /** The table and how reading stopped. */
  datatype ReadResult = ReadResult(table: map<string, Binding>, outcome: Outcome<InputError>)

  /** The name a binding of a section is stored under: "section.name". */
  function BindingKey(section: string, name: string): (key: string)
    ensures |key| == |section| + 1 + |name|
    ensures key[..|section|] == section && key[|section|] == '.' && key[|section| + 1..] == name
  {
    section + "." + name
  }

  /** The control a value such as "key:SPACE" names. `split` is
      util::split_at at ':' and `keycodeFrom`/`mousecodeFrom` are the name
      tables, none of which is part of this model. An unknown prefix gives
      None. */
  function DecodeValue(value: string, split: string -> (string, string),
                       keycodeFrom: string -> int, mousecodeFrom: string -> int): (r: Option<(InputType, int)>)
    ensures split(value).0 == "key" ==> r == Some((Keyboard, keycodeFrom(split(value).1)))
    ensures split(value).0 == "mouse" ==> r == Some((Mouse, mousecodeFrom(split(value).1)))
    ensures r.None? <==> split(value).0 != "key" && split(value).0 != "mouse"
  {
    var (prefix, codename) := split(value);
    if prefix == "key" then Some((Keyboard, keycodeFrom(codename)))
    else if prefix == "mouse" then Some((Mouse, mousecodeFrom(codename)))
    else None
  }

  /** Bindings::bind on a table: a no-op for a name already bound. */
  function BindInto(table: map<string, Binding>, name: string, kind: InputType, code: int): (t: map<string, Binding>)
    ensures t.Keys == table.Keys + {name}
    ensures name in table ==> t == table
    ensures name !in table ==> t[name] == NewBinding(kind, code)
    ensures forall k :: k in table ==> t[k] == table[k]
  {
    if name in table then table else table[name := NewBinding(kind, code)]
  }

  /** Bindings::rebind on a table: throws for an unknown name. */
  function RebindIn(table: map<string, Binding>, name: string, kind: InputType, code: int): (r: Result<map<string, Binding>, InputError>)
    ensures r.Failure? <==> name !in table
    ensures r.Failure? ==> r.error == BindingMissing(name)
    ensures r.Success? ==> r.value == table[name := table[name].Reset(kind, code)]
  {
    if name in table then Success(table[name := table[name].Reset(kind, code)])
    else Failure(BindingMissing(name))
  }

  /** One line of `read`: asString() throws for a value that is not a
      string; an unknown prefix skips the line; otherwise the control is
      bound or rebound under "section.name". */
  function ReadEntry(table: map<string, Binding>, section: string, entry: Field, bindType: BindType,
                     split: string -> (string, string), keycodeFrom: string -> int, mousecodeFrom: string -> int)
    : (r: Result<map<string, Binding>, InputError>)
    ensures !entry.value.Text? ==> r == Failure(TypeMismatch)
    ensures r.Failure? ==> r.error == TypeMismatch || (bindType.Rebind? && r.error == BindingMissing(BindingKey(section, entry.name)))
    ensures entry.value.Text? && DecodeValue(entry.value.text, split, keycodeFrom, mousecodeFrom).None? ==> r == Success(table)
  {
    match entry.value
    case Text(value) =>
      (match DecodeValue(value, split, keycodeFrom, mousecodeFrom)
       case None => Success(table)
       case Some((kind, code)) =>
         var key := BindingKey(section, entry.name);
         if bindType == Bind then Success(BindInto(table, key, kind, code))
         else RebindIn(table, key, kind, code))
    case _ => Failure(TypeMismatch)
  }

  /** The lines of one section in order; the first exception stops reading
      with the table as it was when it was thrown. */
  function ReadEntries(table: map<string, Binding>, section: string, entries: seq<Field>, bindType: BindType,
                       split: string -> (string, string), keycodeFrom: string -> int, mousecodeFrom: string -> int)
    : (r: ReadResult)
    ensures entries == [] ==> r == ReadResult(table, Pass)
    ensures entries != [] && ReadEntry(table, section, entries[0], bindType, split, keycodeFrom, mousecodeFrom).Failure? ==>
              r == ReadResult(table, Fail(ReadEntry(table, section, entries[0], bindType, split, keycodeFrom, mousecodeFrom).error))
    decreases |entries|
  {
    if entries == [] then ReadResult(table, Pass)
    else match ReadEntry(table, section, entries[0], bindType, split, keycodeFrom, mousecodeFrom)
      case Failure(e) => ReadResult(table, Fail(e))
      case Success(t) => ReadEntries(t, section, entries[1..], bindType, split, keycodeFrom, mousecodeFrom)
  }

  /** The sections in order: asObject() throws for a section that is not an
      object, and reading stops at the first exception. */
  function ReadSections(table: map<string, Binding>, sections: seq<Field>, bindType: BindType,
                        split: string -> (string, string), keycodeFrom: string -> int, mousecodeFrom: string -> int)
    : (r: ReadResult)
    ensures sections == [] ==> r == ReadResult(table, Pass)
    ensures sections != [] && !sections[0].value.Object? ==> r == ReadResult(table, Fail(TypeMismatch))
    decreases |sections|
  {
    if sections == [] then ReadResult(table, Pass)
    else match sections[0].value
      case Object(entries) =>
        var r := ReadEntries(table, sections[0].name, entries, bindType, split, keycodeFrom, mousecodeFrom);
        if r.outcome.Fail? then r
        else ReadSections(r.table, sections[1..], bindType, split, keycodeFrom, mousecodeFrom)
      case _ => ReadResult(table, Fail(TypeMismatch))
  }

  /** The whole document, which must be an object of sections. */
  function ReadDocument(table: map<string, Binding>, doc: Node, bindType: BindType,
                        split: string -> (string, string), keycodeFrom: string -> int, mousecodeFrom: string -> int)
    : (r: ReadResult)
    ensures !doc.Object? ==> r == ReadResult(table, Fail(TypeMismatch))
    ensures doc.Object? ==> r == ReadSections(table, doc.fields, bindType, split, keycodeFrom, mousecodeFrom)
  {
    match doc
    case Object(sections) => ReadSections(table, sections, bindType, split, keycodeFrom, mousecodeFrom)
    case _ => ReadResult(table, Fail(TypeMismatch))
  }

  /** Every line of the section is a string. */
  predicate TextEntries(entries: seq<Field>)
  {
    forall k :: 0 <= k < |entries| ==> entries[k].value.Text?
  }

  /** An object of sections, each an object of string lines: the shape on
      which no asObject() or asString() throws. */
  predicate WellShaped(doc: Node)
  {
    doc.Object? &&
    forall k :: 0 <= k < |doc.fields| ==> doc.fields[k].value.Object? && TextEntries(doc.fields[k].value.fields)
  }

  /** A BIND read never replaces or drops a binding that was already there;
      it throws only where a value has the wrong kind, never for a missing
      name. */
  lemma {:induction false} BindEntriesKeepExisting(table: map<string, Binding>, section: string, entries: seq<Field>,
                                                   split: string -> (string, string), keycodeFrom: string -> int, mousecodeFrom: string -> int)
    ensures var r := ReadEntries(table, section, entries, Bind, split, keycodeFrom, mousecodeFrom);
            table.Keys <= r.table.Keys && (forall k :: k in table ==> r.table[k] == table[k]) &&
            (r.outcome.Fail? ==> r.outcome.error == TypeMismatch) &&
            (TextEntries(entries) ==> r.outcome == Pass)
    decreases |entries|
  {
    if entries != [] {
      var step := ReadEntry(table, section, entries[0], Bind, split, keycodeFrom, mousecodeFrom);
      if step.Success? {
        BindEntriesKeepExisting(step.value, section, entries[1..], split, keycodeFrom, mousecodeFrom);
        if TextEntries(entries) {
          assert forall k :: 0 <= k < |entries[1..]| ==> entries[1..][k] == entries[k + 1];
        }
      }
    }
  }

  lemma {:induction false} BindSectionsKeepExisting(table: map<string, Binding>, sections: seq<Field>,
                                                    split: string -> (string, string), keycodeFrom: string -> int, mousecodeFrom: string -> int)
    ensures var r := ReadSections(table, sections, Bind, split, keycodeFrom, mousecodeFrom);
            table.Keys <= r.table.Keys && (forall k :: k in table ==> r.table[k] == table[k]) &&
            (r.outcome.Fail? ==> r.outcome.error == TypeMismatch) &&
            ((forall k :: 0 <= k < |sections| ==> sections[k].value.Object? && TextEntries(sections[k].value.fields)) ==> r.outcome == Pass)
    decreases |sections|
  {
    if sections != [] && sections[0].value.Object? {
      var entries := sections[0].value.fields;
      BindEntriesKeepExisting(table, sections[0].name, entries, split, keycodeFrom, mousecodeFrom);
      var r := ReadEntries(table, sections[0].name, entries, Bind, split, keycodeFrom, mousecodeFrom);
      if r.outcome.Pass? {
        BindSectionsKeepExisting(r.table, sections[1..], split, keycodeFrom, mousecodeFrom);
        assert forall k :: 0 <= k < |sections[1..]| ==> sections[1..][k] == sections[k + 1];
      }
    }
  }

  lemma BindReadKeepsExisting(table: map<string, Binding>, doc: Node,
                              split: string -> (string, string), keycodeFrom: string -> int, mousecodeFrom: string -> int)
    ensures var r := ReadDocument(table, doc, Bind, split, keycodeFrom, mousecodeFrom);
            table.Keys <= r.table.Keys && (forall k :: k in table ==> r.table[k] == table[k]) &&
            (r.outcome.Fail? ==> r.outcome.error == TypeMismatch) &&
            (WellShaped(doc) ==> r.outcome == Pass)
  {
    if doc.Object? {
      BindSectionsKeepExisting(table, doc.fields, split, keycodeFrom, mousecodeFrom);
    }
  }

  /** A REBIND read adds no names, and of every binding changes at most its
      type and code. */
  lemma {:induction false} RebindEntriesKeepKeys(table: map<string, Binding>, section: string, entries: seq<Field>,
                                                 split: string -> (string, string), keycodeFrom: string -> int, mousecodeFrom: string -> int)
    ensures var r := ReadEntries(table, section, entries, Rebind, split, keycodeFrom, mousecodeFrom);
            r.table.Keys == table.Keys &&
            forall k :: k in table ==> r.table[k] == table[k].Reset(r.table[k].kind, r.table[k].code)
    decreases |entries|
  {
    if entries != [] {
      var step := ReadEntry(table, section, entries[0], Rebind, split, keycodeFrom, mousecodeFrom);
      if step.Success? {
        RebindEntriesKeepKeys(step.value, section, entries[1..], split, keycodeFrom, mousecodeFrom);
      }
    }
  }

  lemma {:induction false} RebindSectionsKeepKeys(table: map<string, Binding>, sections: seq<Field>,
                                                  split: string -> (string, string), keycodeFrom: string -> int, mousecodeFrom: string -> int)
    ensures var r := ReadSections(table, sections, Rebind, split, keycodeFrom, mousecodeFrom);
            r.table.Keys == table.Keys &&
            forall k :: k in table ==> r.table[k] == table[k].Reset(r.table[k].kind, r.table[k].code)
    decreases |sections|
  {
    if sections != [] && sections[0].value.Object? {
      var entries := sections[0].value.fields;
      RebindEntriesKeepKeys(table, sections[0].name, entries, split, keycodeFrom, mousecodeFrom);
      var r := ReadEntries(table, sections[0].name, entries, Rebind, split, keycodeFrom, mousecodeFrom);
      if r.outcome.Pass? {
        RebindSectionsKeepKeys(r.table, sections[1..], split, keycodeFrom, mousecodeFrom);
      }
    }
  }

  lemma RebindReadKeepsKeys(table: map<string, Binding>, doc: Node,
                            split: string -> (string, string), keycodeFrom: string -> int, mousecodeFrom: string -> int)
    ensures var r := ReadDocument(table, doc, Rebind, split, keycodeFrom, mousecodeFrom);
            r.table.Keys == table.Keys &&
            forall k :: k in table ==> r.table[k] == table[k].Reset(r.table[k].kind, r.table[k].code)
  {
    if doc.Object? {
      RebindSectionsKeepKeys(table, doc.fields, split, keycodeFrom, mousecodeFrom);
    }
  }

  /** Every binding enabled, the names and all other fields unchanged. */
  function EnabledAll(table: map<string, Binding>): (t: map<string, Binding>)
  {
    map k | k in table :: table[k].(enabled := true)
  }

  class Bindings {
    var bindings: map<string, Binding>

    constructor ()
      ensures bindings == map[]
    {
      bindings := map[];
    }

    /** False for an unknown name. */
    predicate Active(name: string)
      reads this
      ensures name !in bindings ==> !Active(name)
      ensures Get(name).Some? ==> (Active(name) <==> Get(name).value.state)
    {
      name in bindings && bindings[name].Active()
    }

    /** False for an unknown name; implies Active. */
    predicate JActive(name: string)
      reads this
      ensures JActive(name) ==> Active(name)
      ensures JActive(name) <==> name in bindings && bindings[name].JActive()
    {
      name in bindings && bindings[name].JActive()
    }

    /** The binding, or null for an unknown name. */
    function Get(name: string): (r: Option<Binding>)
      reads this
      ensures r.None? <==> name !in bindings
      ensures r.Some? ==> r.value == bindings[name]
    {
      if name in bindings then Some(bindings[name]) else None
    }

    /** Throws for an unknown name. */
    function Require(name: string): (r: Result<Binding, InputError>)
      reads this
      ensures r.Failure? <==> Get(name).None?
      ensures r.Failure? ==> r.error == BindingMissing(name)
      ensures r.Success? ==> Get(name) == Some(r.value)
    {
      if name in bindings then Success(bindings[name]) else Failure(BindingMissing(name))
    }

    /** try_emplace: adds a fresh binding, never overwrites one. */
    method Bind(name: string, kind: InputType, code: int)
      modifies this
      ensures bindings == BindInto(old(bindings), name, kind, code)
      ensures name in old(bindings) ==> bindings == old(bindings)
    {
      if name !in bindings {
        bindings := bindings[name := NewBinding(kind, code)];
      }
    }

    /** Resets type and code of an existing binding; throws otherwise. */
    method Rebind(name: string, kind: InputType, code: int) returns (outcome: Outcome<InputError>)
      modifies this
      ensures outcome.Fail? <==> name !in old(bindings)
      ensures outcome.Fail? ==> outcome.error == BindingMissing(name) && bindings == old(bindings)
      ensures outcome.Pass? ==> bindings == old(bindings)[name := old(bindings)[name].Reset(kind, code)]
    {
      var found := Require(name);
      match found
      case Failure(e) =>
        outcome := Fail(e);
      case Success(b) =>
        bindings := bindings[name := b.Reset(kind, code)];
        outcome := Pass;
    }

    method EnableAll()
      modifies this
      ensures bindings == EnabledAll(old(bindings))
      ensures bindings.Keys == old(bindings).Keys
    {
      var pending := bindings.Keys;
      while pending != {}
        invariant pending <= bindings.Keys == old(bindings).Keys
        invariant forall k :: k in pending ==> bindings[k] == old(bindings)[k]
        invariant forall k :: k in bindings && k !in pending ==> bindings[k] == old(bindings)[k].(enabled := true)
        decreases pending
      {
        var k :| k in pending;
        bindings := bindings[k := bindings[k].(enabled := true)];
        pending := pending - {k};
      }
    }

    /** Bindings::read over a settings document, in the document's
        iteration order. */
    method Read(doc: Node, bindType: BindType,
                split: string -> (string, string), keycodeFrom: string -> int, mousecodeFrom: string -> int)
      returns (outcome: Outcome<InputError>)
      modifies this
      ensures var r := ReadDocument(old(bindings), doc, bindType, split, keycodeFrom, mousecodeFrom);
              bindings == r.table && outcome == r.outcome
    {
      if !doc.Object? {
        return Fail(TypeMismatch);
      }
      var sections := doc.fields;
      ghost var goal := ReadSections(bindings, sections, bindType, split, keycodeFrom, mousecodeFrom);
      var i := 0;
      while i < |sections|
        invariant i <= |sections|
        invariant goal == ReadSections(bindings, sections[i..], bindType, split, keycodeFrom, mousecodeFrom)
      {
        var section := sections[i];
        assert sections[i..][1..] == sections[i + 1..];
        if !section.value.Object? {
          return Fail(TypeMismatch);
        }
        var entries := section.value.fields;
        var j := 0;
        while j < |entries|
          invariant j <= |entries|
          invariant var r := ReadEntries(bindings, section.name, entries[j..], bindType, split, keycodeFrom, mousecodeFrom);
                    goal == if r.outcome.Fail? then r
                            else ReadSections(r.table, sections[i + 1..], bindType, split, keycodeFrom, mousecodeFrom)
        {
          var entry := entries[j];
          assert entries[j..][1..] == entries[j + 1..];
          var key := BindingKey(section.name, entry.name);
          if !entry.value.Text? {
            return Fail(TypeMismatch);
          }
          var decoded := DecodeValue(entry.value.text, split, keycodeFrom, mousecodeFrom);
          match decoded {
            case None =>
            case Some((kind, code)) =>
              if bindType == BindType.Bind {
                Bind(key, kind, code);
              } else {
                var o := Rebind(key, kind, code);
                if o.Fail? {
                  return o;
                }
              }
          }
          j := j + 1;
        }
        i := i + 1;
      }
      outcome := Pass;
    }
  }
}
