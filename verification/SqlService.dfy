/** What the pieces of the text-to-SQL path give together: the query a person approves is
    the query that answers, and what leaves the system hides every sensitive cell. */
module SqlService {
  import opened Wrappers
  import opened SqlText
  import opened SqlAst
  import opened SqlPolicy
  import opened SqlMeaning
  import opened SqlPrivacy
  import opened SqlProposals

  /** From generated text to answer: when the catalogue and config are unchanged at approval
      time, the approval clears the stored row, and the stored text answers with the first
      rows, up to the limit, of what the generated query means. */
  lemma ApprovedQueryAnswersProposal(
      cfg: Config, cat: Catalog, explain: Validated -> Option<string>, sql: string, user: string, expiresAt: int,
      db: Database, it: Interp)
    requires TryText(cfg, cat, explain, sql).Accepted? && Conforms(db, cat)
    ensures var v := TryText(cfg, cat, explain, sql).v;
            var p := ProposalRow(user, v, cat, expiresAt);
            && Decide(cfg, cat, p) == Cleared(v) && v.sql == p.sql
            && ParseSql(sql).Ok? && ParseSql(p.sql).Ok?
            && var generated, stored := ParseSql(sql).value, ParseSql(p.sql).value;
            && stored.limit.Some? && IsIntLiteral(stored.limit.value)
            && Answer(it, db, stored) == Take(v.rowLimit, Unlimited(it, db, generated))
  {
    UnchangedApprovalClears(cfg, cat, explain, sql, user, expiresAt);
    RewritePreservesMeaning(cfg, cat, sql, db, it);
  }

  /** A row of the stored query, masked by the vector that approval recomputes, is the same
      for two row environments that differ in sensitive cells only. Which rows there are may
      still depend on sensitive cells, through WHERE and ON. */
  lemma ApprovedRowsHideSensitiveCells(
      cfg: Config, cat: Catalog, explain: Validated -> Option<string>, sql: string, it: Interp, a: Env, b: Env)
    requires TryText(cfg, cat, explain, sql).Accepted?
    requires ParseSql(TryText(cfg, cat, explain, sql).v.sql).Ok?
    requires AgreeOnPublic(cat, ParseSql(TryText(cfg, cat, explain, sql).v.sql).value.sources, a, b)
    ensures var v := TryText(cfg, cat, explain, sql).v;
            var stored := ParseSql(v.sql).value;
            && MaskRow(v.projectionSensitive, Project(it, a, stored.items)).Some?
            && MaskRow(v.projectionSensitive, Project(it, a, stored.items)) ==
               MaskRow(v.projectionSensitive, Project(it, b, stored.items))
  {
    RevalidationIsFixpoint(cfg, cat, sql);
    MaskingIsSound(cfg, cat, Validate(cfg, cat, sql).value.sql, it, a, b);
  }

  /** The whole masked answer of the stored query is the same on two databases that differ in
      sensitive cells only, when the text a person approved filters and joins on public
      columns. */
  lemma ApprovedAnswersHideSensitiveCells(
      cfg: Config, cat: Catalog, explain: Validated -> Option<string>, sql: string, it: Interp,
      db: Database, db': Database)
    requires TryText(cfg, cat, explain, sql).Accepted?
    requires Conforms(db, cat) && Conforms(db', cat) && SamePublic(cat, db, db')
    requires ParseSql(TryText(cfg, cat, explain, sql).v.sql).Ok?
    requires PublicConditions(cat, ParsedQuery(TryText(cfg, cat, explain, sql).v.sql))
    ensures var v := TryText(cfg, cat, explain, sql).v;
            var stored := ParsedQuery(v.sql);
            && stored.limit.Some? && IsIntLiteral(stored.limit.value)
            && MaskAll(v.projectionSensitive, Answer(it, db, stored)) ==
               MaskAll(v.projectionSensitive, Answer(it, db', stored))
  {
    MaskedAnswersAgree(cfg, cat, sql, it, db, db');
  }
}
