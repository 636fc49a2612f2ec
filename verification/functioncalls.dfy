/** The OpenAI function-calling records and their constructor. */
module FunctionCalls {
  import opened Wrappers

  datatype ArrayItems = ArrayItems(itemType: string)

  /** One property of a function's parameter object. A `Nil` enum is left out
      of the JSON (`omitempty`). */
  datatype FunctionParameter = FunctionParameter(
    paramType: string,
    description: string,
    items: Option<ArrayItems>,
    enum: Slice<string>)

  datatype FunctionParameters = FunctionParameters(
    paramsType: string,
    properties: map<string, FunctionParameter>,
    required: Slice<string>)

  datatype FunctionDefinition = FunctionDefinition(
    name: string,
    description: string,
    parameters: FunctionParameters)

  datatype Function = Function(functionType: string, definition: FunctionDefinition)

  /** `NewOpenAIFunctionDefinition`: a "function" wrapper around an "object"
      parameter list. The constructor's loop that means to turn nil enums into
      empty ones assigns to the loop's copy of each property, so the
      properties, and the required list, are taken over exactly as given. */
  function NewFunctionDefinition(
    name: string, description: string,
    parameters: map<string, FunctionParameter>, requireds: Slice<string>): (r: Function)
    ensures r.functionType == "function"
    ensures r.definition.name == name && r.definition.description == description
    ensures r.definition.parameters.paramsType == "object"
    ensures r.definition.parameters.required == requireds
    ensures r.definition.parameters.properties == parameters
    ensures forall k :: k in parameters && parameters[k].enum.Nil? ==>
      r.definition.parameters.properties[k].enum.Nil?
  {
    Function("function", FunctionDefinition(name, description, FunctionParameters("object", parameters, requireds)))
  }
}
