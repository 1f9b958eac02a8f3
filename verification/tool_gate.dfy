/**
 * The static part of the tool pipeline: what a tool is, what a caller's
 * context is, and the permission rule every call has to pass.
 */
module ToolGate {
  import opened Wrappers

  datatype Scope = Personal | Professional

  datatype SecurityLevel = N1 | N2 | N3 | N4

  /** Tool arguments. `Draft` is the validated input of the draft_action tool; everything else is opaque. */
  datatype Input = Plain(json: string) | Draft(targetTool: string, targetInput: Input)

  datatype Tool = Tool(
    name: string,
    level: SecurityLevel,
    scopes: set<Scope>,
    requiresConfirmation: bool,
    validate: Input -> Option<Input>)

  type Registry = map<string, Tool>

  datatype Context = Context(userId: string, scope: Scope, space: string, pendingActionId: Option<nat>)

  datatype Permission = Allowed | Denied(reason: string)

  const DRAFT_ACTION := "draft_action"

  /** PermissionService.check: the scope rule first, then the N4 backstop. */
  function Check(ctx: Context, tool: Option<Tool>): (p: Permission)
    ensures p.Allowed? <==> tool.Some? && ctx.scope in tool.value.scopes && tool.value.level != N4
    ensures tool.Some? && ctx.scope !in tool.value.scopes ==> p == Denied("scope_not_allowed")
  {
    match tool
    case None => Denied("tool_not_found")
    case Some(t) =>
      if ctx.scope !in t.scopes then Denied("scope_not_allowed")
      else if t.level == N4 then Denied("security_level_n4_blocked")
      else Allowed
  }

  /** The only tools that may run without the user being asked. */
  predicate RunsUnasked(tool: Tool) {
    tool.level == N1 && !tool.requiresConfirmation
  }

  /** The arguments came out of the tool's own validator. */
  ghost predicate Validated(tool: Tool, input: Input) {
    exists raw: Input :: tool.validate(raw) == Some(input)
  }

  /** What register() guarantees (a tool is filed under its own name), and what the shipped draft_action tool is. */
  ghost predicate WellFormed(reg: Registry) {
    && (forall n <- reg :: reg[n].name == n)
    && (DRAFT_ACTION in reg ==>
          && RunsUnasked(reg[DRAFT_ACTION])
          && forall raw: Input ::
               reg[DRAFT_ACTION].validate(raw).Some? ==> reg[DRAFT_ACTION].validate(raw).value.Draft?)
  }
}
