/** The keyword tables of the crawler. app.py, scrapper.py and
    Cyber-Blogs-Crawler-main/app.py each declare these four lists with the same
    entries in the same order, so they are declared once here. */
module Vocabulary {

  /** `keywords`: a post is relevant when one of these occurs in its title. */
  const KEYWORDS: seq<string> := [
    "cybersecurity", "malware", "phishing", "ransomware", "data breach",
    "vulnerability", "exploit", "threat intelligence", "incident response",
    "penetration testing", "network security", "firewall",
    "encryption", "authentication", "access control",
    "zero trust", "compliance", "risk management", "APT", "OSINT",
    "CVE", "patch management", "cloud security", "API security",
    "IoT security", "cryptography", "bug bounty", "forensics",
    "red team", "blue team", "DevSecOps", "DLP", "insider threat",
    "social engineering", "zero-day", "DNS security", "SSL/TLS"
  ]

  const HIGH_SEVERITY: seq<string> := [
    "ransomware", "data breach", "APT", "zero-day", "critical",
    "exploit", "RCE", "compromise", "attack", "incident"
  ]

  const MEDIUM_SEVERITY: seq<string> := [
    "vulnerability", "CVE", "patch", "risk", "malware", "phishing",
    "threat intelligence", "forensics"
  ]

  /** Declared by every copy but consulted by none of them. */
  const LOW_SEVERITY: seq<string> := [
    "security", "firewall", "encryption", "authentication",
    "compliance", "testing", "forensics", "OSINT"
  ]
}
