/** Normalized events as every component sees them. */
module Events {
  import opened Base

  /** Identifiers are only compared; hello also asks for the RFC 4122 variant. */
  datatype Uuid = Uuid(bits: nat, rfc4122: bool)

  datatype Kind = TaskCompleted | AgentQuestion

  datatype Outcome = Succeeded | Failed | Cancelled | Unknown

  datatype MetaValue = Text(text: string) | Flag(flag: bool) | Other(json: string)

  /** content stands for the fields that no modelled decision reads (title, body, urgency, ...). */
  datatype Event = Event(
    id: Uuid,
    sourceId: Uuid,
    kind: Kind,
    outcome: Option<Outcome>,
    occurredAt: int,
    agent: string,
    metadata: Option<map<string, MetaValue>>,
    content: string)

  const TERMINAL_ACTIVATION_METADATA_KEY := "aizu_terminal_activation"
  const LOCAL_APPROVAL_PRESENTED_METADATA_KEY := "aizu_local_approval_presented"
  const CLOCK_SKEW_THRESHOLD := 5 * 60 * 1000

  function RemoveTerminalActivationMetadata(event: Event): (r: Event)
    ensures r.id == event.id && r.sourceId == event.sourceId
    ensures r.metadata.Some? ==> TERMINAL_ACTIVATION_METADATA_KEY !in r.metadata.value
  {
    if event.metadata.None? then event
    else
      var kept := event.metadata.value - {TERMINAL_ACTIVATION_METADATA_KEY};
      event.(metadata := if kept == map[] then None else Some(kept))
  }

  lemma RemovalIsIdempotent(event: Event)
    ensures RemoveTerminalActivationMetadata(RemoveTerminalActivationMetadata(event))
         == RemoveTerminalActivationMetadata(event)
  {
    if event.metadata.Some? {
      var kept := event.metadata.value - {TERMINAL_ACTIVATION_METADATA_KEY};
      assert kept - {TERMINAL_ACTIVATION_METADATA_KEY} == kept;
    }
  }

  /** What the metadata holds under a key. */
  function MetadataAt(event: Event, key: string): Option<MetaValue> {
    if event.metadata.Some? && key in event.metadata.value then Some(event.metadata.value[key]) else None
  }

  /** Stripping takes this one key and no other, and no other field; metadata left empty is dropped. */
  lemma RemovalTakesOneKey(event: Event)
    ensures var r := RemoveTerminalActivationMetadata(event);
            && (forall key :: MetadataAt(r, key) == if key == "aizu_terminal_activation" then None else MetadataAt(event, key))
            && (r.metadata.None? <==> forall key :: key != "aizu_terminal_activation" ==> MetadataAt(event, key).None?)
            && (r == event <==> MetadataAt(event, "aizu_terminal_activation").None? && event.metadata != Some(map[]))
            && r.(metadata := event.metadata) == event
  {
    var r := RemoveTerminalActivationMetadata(event);
    if event.metadata.Some? {
      var kept := event.metadata.value - {TERMINAL_ACTIVATION_METADATA_KEY};
      assert forall key :: key in kept <==> key in event.metadata.value && key != "aizu_terminal_activation";
      if key :| key in kept {
        assert MetadataAt(event, key).Some?;
      } else {
        assert kept == map[];
      }
      if TERMINAL_ACTIVATION_METADATA_KEY !in event.metadata.value {
        assert kept == event.metadata.value;
      }
    }
  }

  /** The same event but for what stripping takes. */
  ghost predicate SameButActivation(a: Event, b: Event) {
    && a.(metadata := b.metadata) == b
    && forall key :: key != "aizu_terminal_activation" ==> MetadataAt(a, key) == MetadataAt(b, key)
  }

  /** The original without the activation key, every other key and field as it was; no metadata at all only if none is left. */
  ghost predicate StrippedOf(event: Event, original: Event) {
    && SameButActivation(event, original) && MetadataAt(event, "aizu_terminal_activation").None?
    && (event.metadata.None? <==> forall key :: key != "aizu_terminal_activation" ==> MetadataAt(original, key).None?)
  }

  lemma RemovalStrips(event: Event)
    ensures StrippedOf(RemoveTerminalActivationMetadata(event), event)
  {
    hide RemoveTerminalActivationMetadata, MetadataAt;
    RemovalTakesOneKey(event);
  }

  /** Two events are the same once stripped exactly when they differ in that key alone. */
  lemma StrippedSameIff(a: Event, b: Event)
    ensures RemoveTerminalActivationMetadata(a) == RemoveTerminalActivationMetadata(b) <==> SameButActivation(a, b)
  {
    hide RemoveTerminalActivationMetadata;
    var r, q := RemoveTerminalActivationMetadata(a), RemoveTerminalActivationMetadata(b);
    RemovalTakesOneKey(a);
    RemovalTakesOneKey(b);
    if r == q {
      forall key | key != "aizu_terminal_activation" ensures MetadataAt(a, key) == MetadataAt(b, key) {
        assert MetadataAt(r, key) == MetadataAt(q, key);
      }
    }
    if SameButActivation(a, b) {
      assert r.metadata.None? <==> q.metadata.None?;
      if r.metadata.Some? {
        forall key ensures key in r.metadata.value <==> key in q.metadata.value
          ensures key in r.metadata.value ==> r.metadata.value[key] == q.metadata.value[key] {
          assert MetadataAt(r, key) == MetadataAt(q, key);
        }
        assert r.metadata.value == q.metadata.value;
      }
    }
  }

  predicate IsClockSkewed(occurredAt: int, receivedAt: int) {
    var distance := receivedAt - occurredAt;
    distance > CLOCK_SKEW_THRESHOLD || -distance > CLOCK_SKEW_THRESHOLD
  }
}
