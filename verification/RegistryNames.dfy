/** The field names of the registries, as code points. */
module RegistryNames {
  import opened JsonSyntax

  const ENTRIES := Key([101, 110, 116, 114, 105, 101, 115])
  const SHA256 := Key([115, 104, 97, 50, 53, 54])
  const STRONG_SIDE := Key([115, 116, 114, 111, 110, 103, 95, 115, 105, 100, 101])
  const REPOSITORY := Key([114, 101, 112, 111, 115, 105, 116, 111, 114, 121])
  const PATH := Key([112, 97, 116, 104])
  const NAME := Key([110, 97, 109, 101])
  const STATUS := Key([115, 116, 97, 116, 117, 115])
  const DISCOVERY := Key([100, 105, 115, 99, 111, 118, 101, 114, 121])
  const FAULT_MODE := Key([102, 97, 117, 108, 116, 95, 109, 111, 100, 101])
  const IMAGE_ROLE := Key([105, 109, 97, 103, 101, 95, 114, 111, 108, 101])
  const COUNTS := Key([99, 111, 117, 110, 116, 115])
  const CANDIDATE_COUNT := Key([99, 97, 110, 100, 105, 100, 97, 116, 101, 95, 99, 111, 117, 110, 116])
  const CLASSIFIED_COUNT := Key([99, 108, 97, 115, 115, 105, 102, 105, 101, 100, 95, 99, 111, 117, 110, 116])
  const RETIRED_COUNT := Key([114, 101, 116, 105, 114, 101, 100, 95, 99, 111, 117, 110, 116])
  const ENTRIES_DIGEST := Key([101, 110, 116, 114, 105, 101, 115, 95, 100, 105, 103, 101, 115, 116])
  const SCHEMA_VERSION := Key([115, 99, 104, 101, 109, 97, 95, 118, 101, 114, 115, 105, 111, 110])
  const KIND := Key([107, 105, 110, 100])
  const COVERAGE_TIER := Key([99, 111, 118, 101, 114, 97, 103, 101, 95, 116, 105, 101, 114])
  const COUNT := Key([99, 111, 117, 110, 116])
  const CLASSIFICATION := Key([99, 108, 97, 115, 115, 105, 102, 105, 99, 97, 116, 105, 111, 110])
  const REASON := Key([114, 101, 97, 115, 111, 110])
  const EVIDENCE := Key([101, 118, 105, 100, 101, 110, 99, 101])
  const RUNTIME_SCOPE := Key([114, 117, 110, 116, 105, 109, 101, 95, 115, 99, 111, 112, 101])
  const MUTATION_OPERATORS := Key([109, 117, 116, 97, 116, 105, 111, 110, 95, 111, 112, 101, 114, 97, 116, 111, 114, 115])
  const BUILD_ANCHOR := Key([98, 117, 105, 108, 100, 95, 97, 110, 99, 104, 111, 114])
  const EXCLUDED_MUTATIONS := Key([101, 120, 99, 108, 117, 100, 101, 100, 95, 109, 117, 116, 97, 116, 105, 111, 110, 115])
  const SCAN := Key([115, 99, 97, 110])
  const BUILD_CLOSURE := Key([98, 117, 105, 108, 100, 95, 99, 108, 111, 115, 117, 114, 101])
  const CMAKE := Key([99, 109, 97, 107, 101])
  const CMAKE_SHA256 := Key([99, 109, 97, 107, 101, 95, 115, 104, 97, 50, 53, 54])
  const RUNTIME_EVIDENCE := Key([114, 117, 110, 116, 105, 109, 101, 95, 101, 118, 105, 100, 101, 110, 99, 101])
  const TARGET_POLICY := Key([105, 110, 115, 116, 97, 108, 108, 101, 100, 95, 115, 101, 114, 118, 105, 99, 101, 95, 116, 97, 114,
    103, 101, 116, 95, 112, 111, 108, 105, 99, 121])
  const EXCLUDED_TEST_PLISTS := Key([101, 120, 99, 108, 117, 100, 101, 100, 95, 116, 101, 115, 116, 95, 112, 108, 105, 115, 116, 115])
  const DECLARED_INPUTS := Key([109, 105, 103, 95, 100, 101, 99, 108, 97, 114, 101, 100, 95, 115, 111, 117, 114, 99, 101, 95, 105,
    110, 112, 117, 116, 115])
  const SOURCE_BINDINGS := Key([103, 101, 110, 101, 114, 97, 116, 101, 100, 95, 115, 111, 117, 114, 99, 101, 95, 98, 105, 110, 100,
    105, 110, 103, 115])
  const GENERATOR := Key([103, 101, 110, 101, 114, 97, 116, 111, 114])
  const INPUTS := Key([105, 110, 112, 117, 116, 115])
  const OUTPUT_PROOF := Key([109, 105, 103, 95, 111, 117, 116, 112, 117, 116, 95, 112, 114, 111, 111, 102])
  const TOOLS := Key([116, 111, 111, 108, 115])
  const OUTPUTS := Key([111, 117, 116, 112, 117, 116, 115])
  const VERSION := Key([118, 101, 114, 115, 105, 111, 110])
  const SOURCE := Key([115, 111, 117, 114, 99, 101])
  const SIZE := Key([115, 105, 122, 101])

  /** The code points spell the name. */
  predicate Spells(s: Step, name: string) {
    s.Key? && |s.name| == |name| && forall i | 0 <= i < |name| :: s.name[i] == name[i] as int
  }

  lemma EntryNames()
    ensures Spells(ENTRIES, "entries") && Spells(SHA256, "sha256")
    ensures Spells(STRONG_SIDE, "strong_side") && Spells(REPOSITORY, "repository")
    ensures Spells(PATH, "path") && Spells(NAME, "name")
    ensures Spells(STATUS, "status") && Spells(DISCOVERY, "discovery")
    ensures Spells(FAULT_MODE, "fault_mode") && Spells(IMAGE_ROLE, "image_role")
  {
  }

  lemma CountNames()
    ensures Spells(COUNTS, "counts") && Spells(CANDIDATE_COUNT, "candidate_count")
    ensures Spells(CLASSIFIED_COUNT, "classified_count") && Spells(RETIRED_COUNT, "retired_count")
    ensures Spells(ENTRIES_DIGEST, "entries_digest")
  {
  }

  lemma AuditNames()
    ensures Spells(SCHEMA_VERSION, "schema_version") && Spells(KIND, "kind")
    ensures Spells(COVERAGE_TIER, "coverage_tier") && Spells(COUNT, "count")
    ensures Spells(CLASSIFICATION, "classification") && Spells(REASON, "reason")
  {
  }

  lemma EvidenceNames()
    ensures Spells(EVIDENCE, "evidence") && Spells(RUNTIME_SCOPE, "runtime_scope")
    ensures Spells(MUTATION_OPERATORS, "mutation_operators") && Spells(BUILD_ANCHOR, "build_anchor")
  {
  }

  lemma ScanNames()
    ensures Spells(EXCLUDED_MUTATIONS, "excluded_mutations") && Spells(SCAN, "scan")
    ensures Spells(BUILD_CLOSURE, "build_closure") && Spells(CMAKE, "cmake")
    ensures Spells(CMAKE_SHA256, "cmake_sha256") && Spells(RUNTIME_EVIDENCE, "runtime_evidence")
  {
  }

  lemma PolicyNames()
    ensures Spells(TARGET_POLICY, "installed_service_target_policy") && Spells(DECLARED_INPUTS, "mig_declared_source_inputs")
  {
  }

  lemma ListNames()
    ensures Spells(SOURCE_BINDINGS, "generated_source_bindings") && Spells(EXCLUDED_TEST_PLISTS, "excluded_test_plists")
  {
  }

  lemma ProofNames()
    ensures Spells(GENERATOR, "generator") && Spells(INPUTS, "inputs")
    ensures Spells(OUTPUT_PROOF, "mig_output_proof") && Spells(TOOLS, "tools")
    ensures Spells(OUTPUTS, "outputs") && Spells(VERSION, "version")
    ensures Spells(SOURCE, "source") && Spells(SIZE, "size")
  {
  }
}
