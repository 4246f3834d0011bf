/** Rules and the messages they are evaluated against. */
module Payloads {
  import opened Common
  import Trigger

  const SOURCE_STATE := "state"
  const SOURCE_EVENT := "event"

  datatype Occupancy = Occupancy(total: int, person: int, vehicle: int)

  /** Dwell statistics are carried, never computed with. */
  datatype Dwell = Dwell(avg: real, min: real, max: real)

  datatype Entity = Entity(entityType: string, trackId: string, dwellTime: Option<real>,
                           confidence: real, attributes: map<string, string>)

  datatype Region = Region(roiId: string, occupancy: Occupancy, dwell: map<string, Dwell>,
                           entities: seq<Entity>, staffCount: int)

  datatype StatePayload = StatePayload(camera: string, emittedAt: int, regions: seq<Region>)

  datatype EventPayload = EventPayload(eventId: string, kind: string, emittedAt: int, camera: string,
                                       roiId: string, entity: Option<Entity>)

  datatype WindowSpec = WindowSpec(duration: string, aggregation: string, groupBy: string)

  datatype Dependency = Dependency(alias: string, cameraId: string, roiId: string, source: string,
                                   eventKind: string, window: Option<WindowSpec>)

  datatype Scope = Scope(cameraId: string, roiId: string, eventKind: string)

  datatype Rule = Rule(id: string, name: string, enabled: bool, dependencies: seq<Dependency>,
                       scope: Option<Scope>, source: string, expression: string, window: Option<int>,
                       sustain: Option<int>, mode: string, cooldownSeconds: int, actionType: string)
  {
    function TriggerConfig(): Trigger.Config {
      Trigger.Config(mode, cooldownSeconds, sustain)
    }

    /** A scope stands for one dependency under the alias "default", when no dependency is declared. */
    function Converted(): Rule {
      if scope.Some? && dependencies == [] then
        this.(dependencies := [Dependency("default", scope.value.cameraId, scope.value.roiId, source,
                                          scope.value.eventKind, None)])
      else this
    }
  }

  /** What an execution of a rule's action records. */
  datatype Firing = Firing(ruleId: string, ruleName: string, triggeredAt: int, actionType: string,
                           cameraId: string, roiId: string, source: string)
}
