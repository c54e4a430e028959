/**
 The table of scalar fields of the server's configuration: its names are good, so the round trip
 holds for it.
 */
module IniTable {
  import opened Text
  import opened IniQuoting
  import opened IniText
  import opened IniCodec
  import opened IniRoundTrip
  import opened IniFamilies
  import opened IniDocuments

  const SERVER_FIELDS := [
    Field("bind_addr", "bind_addr", StringKind),
    Field("port", "port", IntKind),
    Field("host_key", "host_key", StringKind),
    Field("banner", "banner", StringKind),
    Field("motd", "motd", StringKind),
    Field("show_progress", "show_progress", BoolKind)]

  const LOGGING_FIELDS := [
    Field("log_level", "level", StringKind),
    Field("audit_dir", "audit_dir", StringKind),
    Field("audit_max_file_size", "audit_max_file_size", IntKind),
    Field("audit_max_archived_files", "audit_max_archived_files", IntKind),
    Field("audit_retention_days", "audit_retention_days", IntKind),
    Field("audit_encryption_key", "audit_encryption_key", StringKind),
    Field("audit_encryption_key_file", "audit_encryption_key_file", StringKind),
    Field("log_format", "format", StringKind),
    Field("log_transfers", "log_transfers", BoolKind),
    Field("log_port_forwards", "log_port_forwards", BoolKind)]

  const LIMITS_FIELDS := [
    Field("max_sessions", "max_sessions", IntKind),
    Field("session_timeout", "session_timeout", IntKind),
    Field("auth_timeout", "auth_timeout", IntKind),
    Field("per_user_max_sessions", "per_user_max_sessions", IntKind)]

  const IP_ACL_FIELDS := [
    Field("ip_acl_mode", "mode", StringKind),
    Field("ip_acl_rules", "rules", StringKind),
    Field("log_rejections", "log_rejections", BoolKind)]

  const AUTH_FIELDS := [
    Field("auth_backend", "backend", StringKind),
    Field("ldap_uri", "ldap_uri", StringKind),
    Field("ldap_base_dn", "ldap_base_dn", StringKind),
    Field("ldap_bind_dn", "ldap_bind_dn", StringKind),
    Field("ldap_bind_pw", "ldap_bind_pw", StringKind),
    Field("ldap_user_filter", "ldap_user_filter", StringKind),
    Field("ldap_timeout", "ldap_timeout", IntKind),
    Field("ldap_group_attr", "ldap_group_attr", StringKind),
    Field("ldap_email_attr", "ldap_email_attr", StringKind),
    Field("ldap_department_attr", "ldap_department_attr", StringKind),
    Field("ldap_manager_attr", "ldap_manager_attr", StringKind)]

  const SECURITY_FIELDS := [
    Field("lockout_enabled", "lockout_enabled", BoolKind),
    Field("lockout_threshold", "lockout_threshold", IntKind),
    Field("lockout_duration", "lockout_duration", IntKind),
    Field("ip_ban_enabled", "ip_ban_enabled", BoolKind),
    Field("ip_ban_threshold", "ip_ban_threshold", IntKind),
    Field("ip_ban_duration", "ip_ban_duration", IntKind),
    Field("password_min_length", "password_min_length", IntKind),
    Field("password_require_uppercase", "password_require_uppercase", BoolKind),
    Field("password_require_lowercase", "password_require_lowercase", BoolKind),
    Field("password_require_digit", "password_require_digit", BoolKind),
    Field("password_require_special", "password_require_special", BoolKind),
    Field("password_max_age_days", "password_max_age_days", IntKind),
    Field("trusted_user_ca_key", "trusted_user_ca_key", StringKind),
    Field("trusted_user_ca_keys_file", "trusted_user_ca_keys_file", StringKind),
    Field("revoked_user_cert_serial", "revoked_user_cert_serial", StringKind),
    Field("revoked_user_cert_serials_file", "revoked_user_cert_serials_file", StringKind),
    Field("master_key", "master_key", StringKind),
    Field("master_key_file", "master_key_file", StringKind)]

  const MFA_FIELDS := [
    Field("mfa_enabled", "enabled", BoolKind),
    Field("mfa_issuer", "issuer", StringKind),
    Field("mfa_time_step", "time_step", IntKind),
    Field("mfa_digits", "digits", IntKind),
    Field("mfa_window", "window", IntKind)]

  const ROUTER_FIELDS := [
    Field("router_retry_max", "retry_max", IntKind),
    Field("router_retry_initial_delay_ms", "retry_initial_delay_ms", IntKind),
    Field("router_retry_max_delay_ms", "retry_max_delay_ms", IntKind),
    Field("router_retry_backoff_factor", "retry_backoff_factor", FloatKind),
    Field("router_pool_enabled", "pool_enabled", BoolKind),
    Field("router_pool_max_idle", "pool_max_idle", IntKind),
    Field("router_pool_max_idle_time", "pool_max_idle_time", IntKind),
    Field("router_circuit_breaker_enabled", "circuit_breaker_enabled", BoolKind),
    Field("router_circuit_breaker_failure_threshold", "circuit_breaker_failure_threshold", IntKind),
    Field("router_circuit_breaker_open_seconds", "circuit_breaker_open_seconds", IntKind)]

  const ADMIN_FIELDS := [
    Field("admin_enabled", "enabled", BoolKind),
    Field("admin_auth_token", "auth_token", StringKind),
    Field("admin_token_expiry", "token_expiry", IntKind),
    Field("admin_tls_enabled", "tls_enabled", BoolKind),
    Field("admin_tls_cert", "tls_cert", StringKind),
    Field("admin_tls_key", "tls_key", StringKind)]

  const WEBHOOK_FIELDS := [
    Field("webhook_enabled", "enabled", BoolKind),
    Field("webhook_url", "url", StringKind),
    Field("webhook_auth_header", "auth_header", StringKind),
    Field("webhook_hmac_secret", "hmac_secret", StringKind),
    Field("webhook_dead_letter_path", "dead_letter_path", StringKind),
    Field("webhook_events", "events", StringKind),
    Field("webhook_retry_max", "retry_max", IntKind),
    Field("webhook_retry_delay_ms", "retry_delay_ms", IntKind),
    Field("webhook_timeout_ms", "timeout_ms", IntKind),
    Field("webhook_queue_size", "queue_size", IntKind)]

  const NETWORK_SOURCES_FIELDS := [
    Field("source_office_cidrs", "office_cidrs", StringKind),
    Field("source_vpn_cidrs", "vpn_cidrs", StringKind),
    Field("source_geoip_data_file", "geoip_data_file", StringKind)]

  const SESSION_STORE_FIELDS := [
    Field("session_store_type", "type", StringKind),
    Field("session_store_path", "path", StringKind),
    Field("session_store_sync_interval", "sync_interval", IntKind),
    Field("session_store_instance_id", "instance_id", StringKind)]

  const TABLE := [
    Section("server", SERVER_FIELDS),
    Section("logging", LOGGING_FIELDS),
    Section("limits", LIMITS_FIELDS),
    Section("ip_acl", IP_ACL_FIELDS),
    Section("auth", AUTH_FIELDS),
    Section("security", SECURITY_FIELDS),
    Section("mfa", MFA_FIELDS),
    Section("router", ROUTER_FIELDS),
    Section("admin", ADMIN_FIELDS),
    Section("webhook", WEBHOOK_FIELDS),
    Section("network_sources", NETWORK_SOURCES_FIELDS),
    Section("session_store", SESSION_STORE_FIELDS)]

  // ----- names of one section -----

  function At(name: string, i: nat): (r: int) {
    if i < |name| then name[i] as int else 0
  }

  /** A number that tells the names of a section apart, for places p and q that suit the section. */
  function Code(name: string, p: nat, q: nat): (r: int) {
    |name| * 1000000 + At(name, p) * 1000 + At(name, q)
  }

  ghost predicate GoodFields(fields: seq<Field>) {
    DistinctKeys(fields) && AllGood(fields)
  }

  ghost predicate AllGood(fields: seq<Field>) {
    forall i :: 0 <= i < |fields| ==> GoodField(fields[i])
  }

  ghost predicate AllCoded(fields: seq<Field>, p: nat, q: nat, codes: seq<int>) {
    |codes| == |fields| && forall i :: 0 <= i < |fields| ==> Code(fields[i].key, p, q) == codes[i]
  }

  lemma CodesTellApart(fields: seq<Field>, p: nat, q: nat, codes: seq<int>)
    requires AllCoded(fields, p, q, codes)
    requires forall i, j :: 0 <= i < j < |codes| ==> codes[i] != codes[j]
    ensures DistinctKeys(fields)
  {
    hide Code;
    forall i, j | 0 <= i < j < |fields|
      ensures fields[i].key != fields[j].key
    {
      assert Code(fields[i].key, p, q) == codes[i] && Code(fields[j].key, p, q) == codes[j];
    }
  }

  lemma ServerNames()
    ensures IsName("bind_addr") && IsName("port") && IsName("host_key") && IsName("banner") && IsName("motd")
    ensures IsName("show_progress")
  {
  }

  lemma ServerCodes()
    ensures Code("bind_addr", 0, 0) == 9098098 && Code("port", 0, 0) == 4112112 && Code("host_key", 0, 0) == 8104104
    ensures Code("banner", 0, 0) == 6098098 && Code("motd", 0, 0) == 4109109
    ensures Code("show_progress", 0, 0) == 13115115
  {
  }

  lemma ServerDocKeys()
    ensures FreeKey("bind_addr") && FreeKey("port") && FreeKey("host_key") && FreeKey("banner") && FreeKey("motd")
    ensures FreeKey("show_progress")
  {
  }

  lemma ServerFields()
    ensures GoodFields(SERVER_FIELDS)
  {
    hide IsName, FreeKey, Code, DistinctKeys;
    ServerNames();
    ServerCodes();
    ServerDocKeys();
    CodesTellApart(SERVER_FIELDS, 0, 0, [9098098, 4112112, 8104104, 6098098, 4109109, 13115115]);
  }

  lemma LoggingNames0()
    ensures IsName("level") && IsName("audit_dir") && IsName("audit_max_file_size")
    ensures IsName("audit_max_archived_files") && IsName("audit_retention_days") && IsName("audit_encryption_key")
  {
  }

  lemma LoggingNames1()
    ensures IsName("audit_encryption_key_file") && IsName("format") && IsName("log_transfers")
    ensures IsName("log_port_forwards")
  {
  }

  lemma LoggingCodes()
    ensures Code("level", 0, 6) == 5108000 && Code("audit_dir", 0, 6) == 9097100
    ensures Code("audit_max_file_size", 0, 6) == 19097109 && Code("audit_max_archived_files", 0, 6) == 24097109
    ensures Code("audit_retention_days", 0, 6) == 20097114 && Code("audit_encryption_key", 0, 6) == 20097101
    ensures Code("audit_encryption_key_file", 0, 6) == 25097101 && Code("format", 0, 6) == 6102000
    ensures Code("log_transfers", 0, 6) == 13108097 && Code("log_port_forwards", 0, 6) == 17108114
  {
  }

  lemma LoggingDocKeys()
    ensures FreeKey("log_level") && FreeKey("audit_dir") && FreeKey("audit_max_file_size")
    ensures FreeKey("audit_max_archived_files") && FreeKey("audit_retention_days") && FreeKey("audit_encryption_key")
    ensures FreeKey("audit_encryption_key_file") && FreeKey("log_format") && FreeKey("log_transfers")
    ensures FreeKey("log_port_forwards")
  {
  }

  const LOGGING_CODES := [
    5108000, 9097100, 19097109, 24097109, 20097114, 20097101, 25097101, 6102000, 13108097, 17108114]

  lemma LoggingCoded()
    ensures AllCoded(LOGGING_FIELDS, 0, 6, LOGGING_CODES)
  {
    hide Code;
    LoggingCodes();
  }

  lemma LoggingGood()
    ensures AllGood(LOGGING_FIELDS)
  {
    hide IsName, FreeKey;
    LoggingNames0();
    LoggingNames1();
    LoggingDocKeys();
  }

  lemma LoggingFields()
    ensures GoodFields(LOGGING_FIELDS)
  {
    hide AllCoded, AllGood, DistinctKeys;
    LoggingCoded();
    LoggingGood();
    CodesTellApart(LOGGING_FIELDS, 0, 6, LOGGING_CODES);
  }

  lemma LimitsNames()
    ensures IsName("max_sessions") && IsName("session_timeout") && IsName("auth_timeout")
    ensures IsName("per_user_max_sessions")
  {
  }

  lemma LimitsCodes()
    ensures Code("max_sessions", 0, 0) == 12109109 && Code("session_timeout", 0, 0) == 15115115
    ensures Code("auth_timeout", 0, 0) == 12097097 && Code("per_user_max_sessions", 0, 0) == 21112112
  {
  }

  lemma LimitsDocKeys()
    ensures FreeKey("max_sessions") && FreeKey("session_timeout") && FreeKey("auth_timeout")
    ensures FreeKey("per_user_max_sessions")
  {
  }

  lemma LimitsFields()
    ensures GoodFields(LIMITS_FIELDS)
  {
    hide IsName, FreeKey, Code, DistinctKeys;
    LimitsNames();
    LimitsCodes();
    LimitsDocKeys();
    CodesTellApart(LIMITS_FIELDS, 0, 0, [12109109, 15115115, 12097097, 21112112]);
  }

  lemma IpAclNames()
    ensures IsName("mode") && IsName("rules") && IsName("log_rejections")
  {
  }

  lemma IpAclCodes()
    ensures Code("mode", 0, 0) == 4109109 && Code("rules", 0, 0) == 5114114
    ensures Code("log_rejections", 0, 0) == 14108108
  {
  }

  lemma IpAclDocKeys()
    ensures FreeKey("ip_acl_mode") && FreeKey("ip_acl_rules") && FreeKey("log_rejections")
  {
  }

  lemma IpAclFields()
    ensures GoodFields(IP_ACL_FIELDS)
  {
    hide IsName, FreeKey, Code, DistinctKeys;
    IpAclNames();
    IpAclCodes();
    IpAclDocKeys();
    CodesTellApart(IP_ACL_FIELDS, 0, 0, [4109109, 5114114, 14108108]);
  }

  lemma AuthNames0()
    ensures IsName("backend") && IsName("ldap_uri") && IsName("ldap_base_dn") && IsName("ldap_bind_dn")
    ensures IsName("ldap_bind_pw") && IsName("ldap_user_filter") && IsName("ldap_timeout")
    ensures IsName("ldap_group_attr") && IsName("ldap_email_attr")
  {
  }

  lemma AuthNames1()
    ensures IsName("ldap_department_attr") && IsName("ldap_manager_attr")
  {
  }

  lemma AuthCodes()
    ensures Code("backend", 6, 10) == 7100000 && Code("ldap_uri", 6, 10) == 8114000
    ensures Code("ldap_base_dn", 6, 10) == 12097100 && Code("ldap_bind_dn", 6, 10) == 12105100
    ensures Code("ldap_bind_pw", 6, 10) == 12105112 && Code("ldap_user_filter", 6, 10) == 16115102
    ensures Code("ldap_timeout", 6, 10) == 12105117 && Code("ldap_group_attr", 6, 10) == 15114095
    ensures Code("ldap_email_attr", 6, 10) == 15109095 && Code("ldap_department_attr", 6, 10) == 20101116
    ensures Code("ldap_manager_attr", 6, 10) == 17097101
  {
  }

  lemma AuthDocKeys()
    ensures FreeKey("auth_backend") && FreeKey("ldap_uri") && FreeKey("ldap_base_dn") && FreeKey("ldap_bind_dn")
    ensures FreeKey("ldap_bind_pw") && FreeKey("ldap_user_filter") && FreeKey("ldap_timeout")
    ensures FreeKey("ldap_group_attr") && FreeKey("ldap_email_attr") && FreeKey("ldap_department_attr")
    ensures FreeKey("ldap_manager_attr")
  {
  }

  const AUTH_CODES := [
    7100000, 8114000, 12097100, 12105100, 12105112, 16115102, 12105117, 15114095, 15109095, 20101116,
    17097101]

  lemma AuthCoded()
    ensures AllCoded(AUTH_FIELDS, 6, 10, AUTH_CODES)
  {
    hide Code;
    AuthCodes();
  }

  lemma AuthGood()
    ensures AllGood(AUTH_FIELDS)
  {
    hide IsName, FreeKey;
    AuthNames0();
    AuthNames1();
    AuthDocKeys();
  }

  lemma AuthFields()
    ensures GoodFields(AUTH_FIELDS)
  {
    hide AllCoded, AllGood, DistinctKeys;
    AuthCoded();
    AuthGood();
    CodesTellApart(AUTH_FIELDS, 6, 10, AUTH_CODES);
  }

  lemma SecurityNames0()
    ensures IsName("lockout_enabled") && IsName("lockout_threshold") && IsName("lockout_duration")
    ensures IsName("ip_ban_enabled") && IsName("ip_ban_threshold") && IsName("ip_ban_duration")
    ensures IsName("password_min_length")
  {
  }

  lemma SecurityNames1()
    ensures IsName("password_require_uppercase") && IsName("password_require_lowercase")
    ensures IsName("password_require_digit") && IsName("password_require_special") && IsName("password_max_age_days")
  {
  }

  lemma SecurityNames2()
    ensures IsName("trusted_user_ca_key") && IsName("trusted_user_ca_keys_file") && IsName("revoked_user_cert_serial")
    ensures IsName("revoked_user_cert_serials_file") && IsName("master_key")
  {
  }

  lemma SecurityNames3()
    ensures IsName("master_key_file")
  {
  }

  lemma SecurityCodes()
    ensures Code("lockout_enabled", 0, 17) == 15108000 && Code("lockout_threshold", 0, 17) == 17108000
    ensures Code("lockout_duration", 0, 17) == 16108000 && Code("ip_ban_enabled", 0, 17) == 14105000
    ensures Code("ip_ban_threshold", 0, 17) == 16105000 && Code("ip_ban_duration", 0, 17) == 15105000
    ensures Code("password_min_length", 0, 17) == 19112116 && Code("password_require_uppercase", 0, 17) == 26112117
    ensures Code("password_require_lowercase", 0, 17) == 26112108 && Code("password_require_digit", 0, 17) == 22112100
    ensures Code("password_require_special", 0, 17) == 24112115 && Code("password_max_age_days", 0, 17) == 21112100
    ensures Code("trusted_user_ca_key", 0, 17) == 19116101 && Code("trusted_user_ca_keys_file", 0, 17) == 25116101
    ensures Code("revoked_user_cert_serial", 0, 17) == 24114095
    ensures Code("revoked_user_cert_serials_file", 0, 17) == 30114095 && Code("master_key", 0, 17) == 10109000
    ensures Code("master_key_file", 0, 17) == 15109000
  {
  }

  lemma SecurityDocKeys()
    ensures FreeKey("lockout_enabled") && FreeKey("lockout_threshold") && FreeKey("lockout_duration")
    ensures FreeKey("ip_ban_enabled") && FreeKey("ip_ban_threshold") && FreeKey("ip_ban_duration")
    ensures FreeKey("password_min_length") && FreeKey("password_require_uppercase")
    ensures FreeKey("password_require_lowercase") && FreeKey("password_require_digit")
    ensures FreeKey("password_require_special") && FreeKey("password_max_age_days") && FreeKey("trusted_user_ca_key")
    ensures FreeKey("trusted_user_ca_keys_file") && FreeKey("revoked_user_cert_serial")
    ensures FreeKey("revoked_user_cert_serials_file") && FreeKey("master_key") && FreeKey("master_key_file")
  {
  }

  const SECURITY_CODES := [
    15108000, 17108000, 16108000, 14105000, 16105000, 15105000, 19112116, 26112117, 26112108, 22112100,
    24112115, 21112100, 19116101, 25116101, 24114095, 30114095, 10109000, 15109000]

  lemma SecurityCoded()
    ensures AllCoded(SECURITY_FIELDS, 0, 17, SECURITY_CODES)
  {
    hide Code;
    SecurityCodes();
  }

  lemma SecurityGood()
    ensures AllGood(SECURITY_FIELDS)
  {
    hide IsName, FreeKey;
    SecurityNames0();
    SecurityNames1();
    SecurityNames2();
    SecurityNames3();
    SecurityDocKeys();
  }

  lemma SecurityFields()
    ensures GoodFields(SECURITY_FIELDS)
  {
    hide AllCoded, AllGood, DistinctKeys;
    SecurityCoded();
    SecurityGood();
    CodesTellApart(SECURITY_FIELDS, 0, 17, SECURITY_CODES);
  }

  lemma MfaNames()
    ensures IsName("enabled") && IsName("issuer") && IsName("time_step") && IsName("digits") && IsName("window")
  {
  }

  lemma MfaCodes()
    ensures Code("enabled", 0, 0) == 7101101 && Code("issuer", 0, 0) == 6105105 && Code("time_step", 0, 0) == 9116116
    ensures Code("digits", 0, 0) == 6100100 && Code("window", 0, 0) == 6119119
  {
  }

  lemma MfaDocKeys()
    ensures FreeKey("mfa_enabled") && FreeKey("mfa_issuer") && FreeKey("mfa_time_step") && FreeKey("mfa_digits")
    ensures FreeKey("mfa_window")
  {
  }

  lemma MfaFields()
    ensures GoodFields(MFA_FIELDS)
  {
    hide IsName, FreeKey, Code, DistinctKeys;
    MfaNames();
    MfaCodes();
    MfaDocKeys();
    CodesTellApart(MFA_FIELDS, 0, 0, [7101101, 6105105, 9116116, 6100100, 6119119]);
  }

  lemma RouterNames0()
    ensures IsName("retry_max") && IsName("retry_initial_delay_ms") && IsName("retry_max_delay_ms")
    ensures IsName("retry_backoff_factor") && IsName("pool_enabled") && IsName("pool_max_idle")
    ensures IsName("pool_max_idle_time")
  {
  }

  lemma RouterNames1()
    ensures IsName("circuit_breaker_enabled") && IsName("circuit_breaker_failure_threshold")
    ensures IsName("circuit_breaker_open_seconds")
  {
  }

  lemma RouterCodes()
    ensures Code("retry_max", 0, 0) == 9114114 && Code("retry_initial_delay_ms", 0, 0) == 22114114
    ensures Code("retry_max_delay_ms", 0, 0) == 18114114 && Code("retry_backoff_factor", 0, 0) == 20114114
    ensures Code("pool_enabled", 0, 0) == 12112112 && Code("pool_max_idle", 0, 0) == 13112112
    ensures Code("pool_max_idle_time", 0, 0) == 18112112 && Code("circuit_breaker_enabled", 0, 0) == 23099099
    ensures Code("circuit_breaker_failure_threshold", 0, 0) == 33099099
    ensures Code("circuit_breaker_open_seconds", 0, 0) == 28099099
  {
  }

  lemma RouterDocKeys()
    ensures FreeKey("router_retry_max") && FreeKey("router_retry_initial_delay_ms")
    ensures FreeKey("router_retry_max_delay_ms") && FreeKey("router_retry_backoff_factor")
    ensures FreeKey("router_pool_enabled") && FreeKey("router_pool_max_idle") && FreeKey("router_pool_max_idle_time")
    ensures FreeKey("router_circuit_breaker_enabled") && FreeKey("router_circuit_breaker_failure_threshold")
    ensures FreeKey("router_circuit_breaker_open_seconds")
  {
  }

  const ROUTER_CODES := [
    9114114, 22114114, 18114114, 20114114, 12112112, 13112112, 18112112, 23099099, 33099099, 28099099]

  lemma RouterCoded()
    ensures AllCoded(ROUTER_FIELDS, 0, 0, ROUTER_CODES)
  {
    hide Code;
    RouterCodes();
  }

  lemma RouterGood()
    ensures AllGood(ROUTER_FIELDS)
  {
    hide IsName, FreeKey;
    RouterNames0();
    RouterNames1();
    RouterDocKeys();
  }

  lemma RouterFields()
    ensures GoodFields(ROUTER_FIELDS)
  {
    hide AllCoded, AllGood, DistinctKeys;
    RouterCoded();
    RouterGood();
    CodesTellApart(ROUTER_FIELDS, 0, 0, ROUTER_CODES);
  }

  lemma AdminNames()
    ensures IsName("enabled") && IsName("auth_token") && IsName("token_expiry") && IsName("tls_enabled")
    ensures IsName("tls_cert") && IsName("tls_key")
  {
  }

  lemma AdminCodes()
    ensures Code("enabled", 0, 0) == 7101101 && Code("auth_token", 0, 0) == 10097097
    ensures Code("token_expiry", 0, 0) == 12116116 && Code("tls_enabled", 0, 0) == 11116116
    ensures Code("tls_cert", 0, 0) == 8116116 && Code("tls_key", 0, 0) == 7116116
  {
  }

  lemma AdminDocKeys()
    ensures FreeKey("admin_enabled") && FreeKey("admin_auth_token") && FreeKey("admin_token_expiry")
    ensures FreeKey("admin_tls_enabled") && FreeKey("admin_tls_cert") && FreeKey("admin_tls_key")
  {
  }

  lemma AdminFields()
    ensures GoodFields(ADMIN_FIELDS)
  {
    hide IsName, FreeKey, Code, DistinctKeys;
    AdminNames();
    AdminCodes();
    AdminDocKeys();
    CodesTellApart(ADMIN_FIELDS, 0, 0, [7101101, 10097097, 12116116, 11116116, 8116116, 7116116]);
  }

  lemma WebhookNames()
    ensures IsName("enabled") && IsName("url") && IsName("auth_header") && IsName("hmac_secret")
    ensures IsName("dead_letter_path") && IsName("events") && IsName("retry_max") && IsName("retry_delay_ms")
    ensures IsName("timeout_ms") && IsName("queue_size")
  {
  }

  lemma WebhookCodes()
    ensures Code("enabled", 0, 0) == 7101101 && Code("url", 0, 0) == 3117117 && Code("auth_header", 0, 0) == 11097097
    ensures Code("hmac_secret", 0, 0) == 11104104 && Code("dead_letter_path", 0, 0) == 16100100
    ensures Code("events", 0, 0) == 6101101 && Code("retry_max", 0, 0) == 9114114
    ensures Code("retry_delay_ms", 0, 0) == 14114114 && Code("timeout_ms", 0, 0) == 10116116
    ensures Code("queue_size", 0, 0) == 10113113
  {
  }

  lemma WebhookDocKeys()
    ensures FreeKey("webhook_enabled") && FreeKey("webhook_url") && FreeKey("webhook_auth_header")
    ensures FreeKey("webhook_hmac_secret") && FreeKey("webhook_dead_letter_path") && FreeKey("webhook_events")
    ensures FreeKey("webhook_retry_max") && FreeKey("webhook_retry_delay_ms") && FreeKey("webhook_timeout_ms")
    ensures FreeKey("webhook_queue_size")
  {
  }

  const WEBHOOK_CODES := [
    7101101, 3117117, 11097097, 11104104, 16100100, 6101101, 9114114, 14114114, 10116116, 10113113]

  lemma WebhookCoded()
    ensures AllCoded(WEBHOOK_FIELDS, 0, 0, WEBHOOK_CODES)
  {
    hide Code;
    WebhookCodes();
  }

  lemma WebhookGood()
    ensures AllGood(WEBHOOK_FIELDS)
  {
    hide IsName, FreeKey;
    WebhookNames();
    WebhookDocKeys();
  }

  lemma WebhookFields()
    ensures GoodFields(WEBHOOK_FIELDS)
  {
    hide AllCoded, AllGood, DistinctKeys;
    WebhookCoded();
    WebhookGood();
    CodesTellApart(WEBHOOK_FIELDS, 0, 0, WEBHOOK_CODES);
  }

  lemma NetworkSourcesNames()
    ensures IsName("office_cidrs") && IsName("vpn_cidrs") && IsName("geoip_data_file")
  {
  }

  lemma NetworkSourcesCodes()
    ensures Code("office_cidrs", 0, 0) == 12111111 && Code("vpn_cidrs", 0, 0) == 9118118
    ensures Code("geoip_data_file", 0, 0) == 15103103
  {
  }

  lemma NetworkSourcesDocKeys()
    ensures FreeKey("source_office_cidrs") && FreeKey("source_vpn_cidrs") && FreeKey("source_geoip_data_file")
  {
  }

  lemma NetworkSourcesFields()
    ensures GoodFields(NETWORK_SOURCES_FIELDS)
  {
    hide IsName, FreeKey, Code, DistinctKeys;
    NetworkSourcesNames();
    NetworkSourcesCodes();
    NetworkSourcesDocKeys();
    CodesTellApart(NETWORK_SOURCES_FIELDS, 0, 0, [12111111, 9118118, 15103103]);
  }

  lemma SessionStoreNames()
    ensures IsName("type") && IsName("path") && IsName("sync_interval") && IsName("instance_id")
  {
  }

  lemma SessionStoreCodes()
    ensures Code("type", 0, 0) == 4116116 && Code("path", 0, 0) == 4112112 && Code("sync_interval", 0, 0) == 13115115
    ensures Code("instance_id", 0, 0) == 11105105
  {
  }

  lemma SessionStoreDocKeys()
    ensures FreeKey("session_store_type") && FreeKey("session_store_path") && FreeKey("session_store_sync_interval")
    ensures FreeKey("session_store_instance_id")
  {
  }

  lemma SessionStoreFields()
    ensures GoodFields(SESSION_STORE_FIELDS)
  {
    hide IsName, FreeKey, Code, DistinctKeys;
    SessionStoreNames();
    SessionStoreCodes();
    SessionStoreDocKeys();
    CodesTellApart(SESSION_STORE_FIELDS, 0, 0, [4116116, 4112112, 13115115, 11105105]);
  }

  // ----- the table -----

  /** Looking a field up by its joined name is looking it up by section and key, whatever the file says. */
  lemma JoinedNames(section: string, key: string, s: string, k: string)
    requires IsName(s) && IsName(k)
    ensures section + "." + key == s + "." + k <==> section == s && key == k
  {
    var joined, spec := section + "." + key, s + "." + k;
    forall i | 0 <= i < |spec| && i != |s|
      ensures spec[i] != '.'
    {
      assert spec[i] == if i < |s| then s[i] else k[i - |s| - 1];
    }
    if joined == spec {
      assert joined[|section|] == '.';
      assert section == joined[..|section|] && s == spec[..|s|];
      assert key == joined[|section| + 1..] && k == spec[|s| + 1..];
    }
  }

  lemma SectionIsGood(i: nat)
    requires i < |TABLE|
    ensures GoodSection(TABLE[i])
  {
    hide GoodField, DistinctKeys;
    SectionsNamed();
    match i
    case 0 => ServerFields();
    case 1 => LoggingFields();
    case 2 => LimitsFields();
    case 3 => IpAclFields();
    case 4 => AuthFields();
    case 5 => SecurityFields();
    case 6 => MfaFields();
    case 7 => RouterFields();
    case 8 => AdminFields();
    case 9 => WebhookFields();
    case 10 => NetworkSourcesFields();
    case _ => SessionStoreFields();
  }

  lemma SectionsNamed()
    ensures forall i :: 0 <= i < |TABLE| ==> IsName(TABLE[i].name)
    ensures forall i :: 0 <= i < |TABLE| ==>
      TABLE[i].name != "route" && TABLE[i].name != "policy" && TABLE[i].name != "user"
  {
  }

  lemma SectionsDistinct()
    ensures forall i, j :: 0 <= i < j < |TABLE| ==> TABLE[i].name != TABLE[j].name
  {
  }

  /** The server's own table is a good one. */
  lemma TableIsGood()
    ensures GoodTable(TABLE)
  {
    hide GoodSection;
    SectionsDistinct();
    forall i | 0 <= i < |TABLE|
      ensures GoodSection(TABLE[i])
    {
      SectionIsGood(i);
    }
  }

  /** The round trip of the server's own documents. */
  lemma OwnDocumentsReturnIff(sc: Strconv, doc: Object)
    requires Lawful(sc) && RepresentableDocument(sc, doc) && OneLineDocument(TABLE, doc)
    ensures ParseResult(sc, TABLE, RenderText(sc, TABLE, doc)) == Ok(doc) <==> NormalForm(sc, TABLE, doc)
  {
    hide *;
    TableIsGood();
    PrintedOnOneLine(sc, TABLE, doc);
    ReturnsIff(sc, TABLE, doc);
  }
}
