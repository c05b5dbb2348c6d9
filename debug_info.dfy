/** Debug metadata produced by the code generator: spans, documentation and function start indices. */
module DebugInfos {
  import opened Common
  import opened Spans

  class DebugInfo {
    var instructionSpans: map<nat, Span>
    var entityDocs: map<string, string>
    var functionStarts: map<string, nat>
    var source: Option<string>

    /** `DebugInfo::new`: all maps empty, no source. */
    constructor ()
      ensures instructionSpans == map[] && entityDocs == map[] && functionStarts == map[] && source == None
    {
      instructionSpans := map[];
      entityDocs := map[];
      functionStarts := map[];
      source := None;
    }

    /** `DebugInfo::set_source`. */
    method SetSource(text: string)
      modifies this
      ensures source == Some(text)
      ensures instructionSpans == old(instructionSpans) && entityDocs == old(entityDocs) && functionStarts == old(functionStarts)
    {
      source := Some(text);
    }

    /** `DebugInfo::add_instruction_span`. */
    method AddInstructionSpan(index: nat, span: Span)
      modifies this
      ensures instructionSpans == old(instructionSpans)[index := span]
      ensures GetInstructionSpan(index) == Some(span)
      ensures entityDocs == old(entityDocs) && functionStarts == old(functionStarts) && source == old(source)
    {
      instructionSpans := instructionSpans[index := span];
    }

    /** `DebugInfo::add_entity_doc`: a later document for the same entity replaces the earlier one. */
    method AddEntityDoc(entity: string, doc: string)
      modifies this
      ensures entityDocs == old(entityDocs)[entity := doc]
      ensures GetEntityDoc(entity) == Some(doc)
      ensures instructionSpans == old(instructionSpans) && functionStarts == old(functionStarts) && source == old(source)
    {
      entityDocs := entityDocs[entity := doc];
    }

    /** `DebugInfo::mark_function_start`. */
    method MarkFunctionStart(name: string, index: nat)
      modifies this
      ensures functionStarts == old(functionStarts)[name := index]
      ensures GetFunctionStart(name) == Some(index)
      ensures forall other :: other != name ==> GetFunctionStart(other) == old(GetFunctionStart(other))
      ensures instructionSpans == old(instructionSpans) && entityDocs == old(entityDocs) && source == old(source)
    {
      functionStarts := functionStarts[name := index];
    }

    /** `DebugInfo::get_instruction_span`. */
    function GetInstructionSpan(index: nat): (r: Option<Span>)
      reads this
      ensures r.Some? <==> index in instructionSpans
      ensures r.Some? ==> r.value == instructionSpans[index]
    {
      if index in instructionSpans then Some(instructionSpans[index]) else None
    }

    /** `DebugInfo::get_entity_doc`. */
    function GetEntityDoc(entity: string): (r: Option<string>)
      reads this
      ensures r.Some? <==> entity in entityDocs
      ensures r.Some? ==> r.value == entityDocs[entity]
    {
      if entity in entityDocs then Some(entityDocs[entity]) else None
    }

    /** `DebugInfo::get_function_start`. */
    function GetFunctionStart(name: string): (r: Option<nat>)
      reads this
      ensures r.Some? <==> name in functionStarts
      ensures r.Some? ==> r.value == functionStarts[name]
    {
      if name in functionStarts then Some(functionStarts[name]) else None
    }

    /** `#[derive(Clone)]`: an independent copy with the same contents. */
    method Clone() returns (copy: DebugInfo)
      ensures fresh(copy)
      ensures copy.instructionSpans == instructionSpans && copy.entityDocs == entityDocs
      ensures copy.functionStarts == functionStarts && copy.source == source
    {
      copy := new DebugInfo();
      copy.instructionSpans := instructionSpans;
      copy.entityDocs := entityDocs;
      copy.functionStarts := functionStarts;
      copy.source := source;
    }
  }
}
